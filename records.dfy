/** Rows of the archive database that the sender service reads, and the
    store calls it makes. Column lists are cut down to what the dispatcher
    uses; display metadata (patient name, dates, modalities, status,
    timestamps) is opaque to it and left out. */
module Records {

  datatype Option<+T> = None | Some(value: T)

  /** A row of `outgoing_sessions`: one requested outbound transfer. */
  datatype Job = Job(id: int, uuid: string, queued: bool, studyInstanceUid: string, destinationId: int)

  /** A row of `destinations`: where and as whom a study is sent. */
  datatype Destination = Destination(id: int, name: string, host: string, port: int,
                                     destinationAE: string, sourceAE: string)

  /** Rows of `patient_studies`, `series` and `instances`, linked by foreign keys. */
  datatype PatientStudy = PatientStudy(id: int, studyInstanceUid: string)
  datatype Series = Series(id: int, seriesInstanceUid: string, patientStudyId: int)
  datatype Instance = Instance(id: int, sopInstanceUid: string, seriesId: int)

  /** The tables the service only reads. The study hierarchy is kept in
      table order, which is the order the model gives to query results. */
  datatype Archive = Archive(destinations: map<int, Destination>,
                             studies: seq<PatientStudy>,
                             series: seq<Series>,
                             instances: seq<Instance>)

  /** Every store call the service makes. A call that appears in the
      fault set handed to an operation throws instead of returning. */
  datatype Query =
    | SelectQueued
    | UpdateQueued(id: int)
    | SelectRowCount
    | SelectDestination(id: int)
    | SelectStudies(studyInstanceUid: string)
    | SelectSeries(patientStudyId: int)
    | SelectInstances(seriesId: int)

  /** The rows of `s` that satisfy `keep`, in their original order: what a
      `SELECT ... WHERE` returns in this model. */
  function Filter<T(!new)>(s: seq<T>, keep: T -> bool): (r: seq<T>)
    ensures |r| <= |s|
    ensures forall x :: x in r <==> x in s && keep(x)
  {
    if s == [] then []
    else (if keep(s[0]) then [s[0]] else []) + Filter(s[1..], keep)
  }

  /** `SELECT ... FROM patient_studies WHERE StudyInstanceUID = ?` */
  function StudiesWithUid(a: Archive, uid: string): (r: seq<PatientStudy>)
  {
    Filter(a.studies, (p: PatientStudy) => p.studyInstanceUid == uid)
  }

  /** `SELECT ... FROM series WHERE patient_study_id = ?` */
  function SeriesOf(a: Archive, studyId: int): (r: seq<Series>)
  {
    Filter(a.series, (s: Series) => s.patientStudyId == studyId)
  }

  /** `SELECT ... FROM instances WHERE series_id = ?` */
  function InstancesOf(a: Archive, seriesId: int): (r: seq<Instance>)
  {
    Filter(a.instances, (i: Instance) => i.seriesId == seriesId)
  }

  /** Each of the three queries returns exactly the rows its WHERE clause
      selects. */
  lemma WhereClauses(a: Archive, uid: string, studyId: int, seriesId: int)
    ensures forall p :: p in StudiesWithUid(a, uid) <==> p in a.studies && p.studyInstanceUid == uid
    ensures forall s :: s in SeriesOf(a, studyId) <==> s in a.series && s.patientStudyId == studyId
    ensures forall i :: i in InstancesOf(a, seriesId) <==> i in a.instances && i.seriesId == seriesId
  {
  }

  /** The first rows of a filter are the first matching rows of the table:
      `LIMIT 1` and `list[0]` pick the earliest match. */
  lemma {:induction false} FilterHead<T(!new)>(s: seq<T>, keep: T -> bool)
    requires Filter(s, keep) != []
    ensures exists k :: 0 <= k < |s| && s[k] == Filter(s, keep)[0] && keep(s[k]) &&
                        forall j :: 0 <= j < k ==> !keep(s[j])
  {
    if keep(s[0]) {
      assert s[0] == Filter(s, keep)[0];
    } else {
      assert Filter(s, keep) == Filter(s[1..], keep);
      FilterHead(s[1..], keep);
      var k :| 0 <= k < |s[1..]| && s[1..][k] == Filter(s[1..], keep)[0] && keep(s[1..][k]) &&
                forall j :: 0 <= j < k ==> !keep(s[1..][j]);
      assert s[k + 1] == Filter(s, keep)[0];
      forall j | 0 <= j < k + 1 ensures !keep(s[j]) {
        if j > 0 { assert s[j] == s[1..][j - 1]; }
      }
    }
  }
}
