/** What `GetFilesToSend` computes: the study's instances, walked series by
    series, each filed under root / study / series / (sop + ".dcm") and
    inserted into the caller's map without overwriting. */
module Enumeration {
  import opened Records
  import opened Paths

  /** What the call leaves behind: its return value and the map it filled. */
  datatype Listing = Listing(ok: bool, files: map<string, string>)

  /** `std::map::insert`: a key already present keeps its path. */
  function Insert(m: map<string, string>, key: string, path: string): (r: map<string, string>)
    ensures r.Keys == m.Keys + {key}
    ensures forall k :: k in m ==> r[k] == m[k]
    ensures key !in m ==> r[key] == path
  {
    if key in m then m else m[key := path]
  }

  /** The SOP instance UIDs of the given instance rows. */
  function SopUids(insts: seq<Instance>): set<string>
    decreases |insts|
  {
    if insts == [] then {}
    else SopUids(insts[..|insts| - 1]) + {insts[|insts| - 1].sopInstanceUid}
  }

  /** A UID is among them exactly when some row carries it. */
  lemma {:induction false} SopUidsMembers(insts: seq<Instance>, k: string)
    ensures k in SopUids(insts) <==> exists i :: 0 <= i < |insts| && insts[i].sopInstanceUid == k
    decreases |insts|
  {
    if insts != [] {
      var n := |insts| - 1;
      SopUidsMembers(insts[..n], k);
      if k in SopUids(insts[..n]) {
        var i :| 0 <= i < n && insts[..n][i].sopInstanceUid == k;
        assert insts[i].sopInstanceUid == k;
      }
      if exists i :: 0 <= i < |insts| && insts[i].sopInstanceUid == k {
        var i :| 0 <= i < |insts| && insts[i].sopInstanceUid == k;
        if i < n { assert insts[..n][i].sopInstanceUid == k; }
      }
    }
  }

  /** The SOP instance UIDs stored for series `s`. */
  function SeriesSops(a: Archive, s: Series): set<string>
  {
    SopUids(InstancesOf(a, s.id))
  }

  /** The inner loop over one series' instances, all filed under `dir`. */
  function InsertInstances(m: map<string, string>, dir: string, insts: seq<Instance>): map<string, string>
    decreases |insts|
  {
    if insts == [] then m
    else
      var n := |insts| - 1;
      Insert(InsertInstances(m, dir, insts[..n]), insts[n].sopInstanceUid,
             Append(dir, insts[n].sopInstanceUid + ".dcm"))
  }

  /** The inner loop keeps the entries already there and adds one per SOP
      instance UID of the series, whose path is that UID's file in `dir`. */
  lemma {:induction false} InsertInstancesEntries(m: map<string, string>, dir: string, insts: seq<Instance>)
    ensures var r := InsertInstances(m, dir, insts);
      && r.Keys == m.Keys + SopUids(insts)
      && (forall k :: k in m ==> r[k] == m[k])
      && (forall k :: k in r && k !in m ==> r[k] == Append(dir, k + ".dcm"))
    decreases |insts|
  {
    if insts != [] {
      var n := |insts| - 1;
      var init := insts[..n];
      InsertInstancesEntries(m, dir, init);
      var prev := InsertInstances(m, dir, init);
      var k := insts[n].sopInstanceUid;
      assert InsertInstances(m, dir, insts) == Insert(prev, k, Append(dir, k + ".dcm"));
      assert SopUids(insts) == SopUids(init) + {k};
    }
  }

  /** One more instance of the inner loop. */
  lemma InsertInstancesStep(m: map<string, string>, dir: string, insts: seq<Instance>, j: nat)
    requires j < |insts|
    ensures InsertInstances(m, dir, insts[..j + 1])
            == Insert(InsertInstances(m, dir, insts[..j]), insts[j].sopInstanceUid,
                      Append(dir, insts[j].sopInstanceUid + ".dcm"))
  {
    assert insts[..j + 1][..j] == insts[..j];
  }

  /** The outer loop over the study's series, up to the first whose
      instance query throws. */
  function FillSeries(a: Archive, root: string, study: string, faults: set<Query>,
                      m: map<string, string>, list: seq<Series>): Listing
    decreases |list|
  {
    if list == [] then Listing(true, m)
    else
      var n := |list| - 1;
      var prev := FillSeries(a, root, study, faults, m, list[..n]);
      if !prev.ok then prev
      else if SelectInstances(list[n].id) in faults then Listing(false, prev.files)
      else Listing(true, InsertInstances(prev.files, SeriesDir(root, study, list[n].seriesInstanceUid),
                                         InstancesOf(a, list[n].id)))
  }

  /** One more series of the outer loop, after the earlier ones all
      succeeded. */
  lemma FillSeriesStep(a: Archive, root: string, study: string, faults: set<Query>,
                       m: map<string, string>, list: seq<Series>, i: nat)
    requires i < |list|
    requires FillSeries(a, root, study, faults, m, list[..i]).ok
    ensures var prev := FillSeries(a, root, study, faults, m, list[..i]);
      FillSeries(a, root, study, faults, m, list[..i + 1])
      == if SelectInstances(list[i].id) in faults then Listing(false, prev.files)
         else Listing(true, InsertInstances(prev.files, SeriesDir(root, study, list[i].seriesInstanceUid),
                                            InstancesOf(a, list[i].id)))
  {
    assert list[..i + 1][..i] == list[..i];
  }

  /** The whole call: find the study (throwing when none matches), list its
      series, and fill the map. */
  function Enumerate(a: Archive, root: string, study: string, faults: set<Query>,
                     m: map<string, string>): (r: Listing)
    ensures r.ok ==> SelectStudies(study) !in faults && StudiesWithUid(a, study) != []
    ensures StudiesWithUid(a, study) == [] ==> r == Listing(false, m)
    ensures r.ok && SeriesOf(a, StudiesWithUid(a, study)[0].id) == [] ==> r.files == m
    ensures && SelectStudies(study) !in faults && StudiesWithUid(a, study) != []
            && SelectSeries(StudiesWithUid(a, study)[0].id) !in faults
            && SeriesOf(a, StudiesWithUid(a, study)[0].id) == []
            ==> r == Listing(true, m)
  {
    if SelectStudies(study) in faults then Listing(false, m)
    else
      var studies := StudiesWithUid(a, study);
      if |studies| <= 0 then Listing(false, m)
      else if SelectSeries(studies[0].id) in faults then Listing(false, m)
      else FillSeries(a, root, study, faults, m, SeriesOf(a, studies[0].id))
  }

  /** Every SOP instance UID stored under any series of `list`. */
  function AllSops(a: Archive, list: seq<Series>): set<string>
    decreases |list|
  {
    if list == [] then {}
    else AllSops(a, list[..|list| - 1]) + SeriesSops(a, list[|list| - 1])
  }

  /** The first series of `list` that holds an instance with UID `k`. */
  function FirstSeriesWith(a: Archive, list: seq<Series>, k: string): (r: Option<nat>)
    ensures r.Some? ==> r.value < |list| && k in SeriesSops(a, list[r.value])
    decreases |list|
  {
    if list == [] then None
    else
      var n := |list| - 1;
      var f := FirstSeriesWith(a, list[..n], k);
      if f.Some? then f
      else if k in SeriesSops(a, list[n]) then Some(n)
      else None
  }

  /** No series before the one found holds `k`, and none is found exactly
      when no series of `list` holds it. */
  lemma {:induction false} FirstSeriesWithFirst(a: Archive, list: seq<Series>, k: string)
    ensures var r := FirstSeriesWith(a, list, k);
      && (r.Some? ==> forall i :: 0 <= i < r.value ==> k !in SeriesSops(a, list[i]))
      && (r.None? <==> forall i :: 0 <= i < |list| ==> k !in SeriesSops(a, list[i]))
    decreases |list|
  {
    if list != [] {
      var n := |list| - 1;
      var init := list[..n];
      FirstSeriesWithFirst(a, init, k);
      assert forall i :: 0 <= i < n ==> init[i] == list[i];
    }
  }

  /** The series loop over a longer list succeeds exactly when it did over
      the shorter one and the last series' instance query does not throw. */
  lemma FillSeriesOkStep(a: Archive, root: string, study: string, faults: set<Query>,
                         m: map<string, string>, list: seq<Series>)
    requires list != []
    ensures FillSeries(a, root, study, faults, m, list).ok
            == (FillSeries(a, root, study, faults, m, list[..|list| - 1]).ok
                && SelectInstances(list[|list| - 1].id) !in faults)
  {
  }

  /** No instance query of a list throws exactly when none of its first
      `n` series' queries does and the last one's does not. */
  lemma InstancesClearStep(faults: set<Query>, list: seq<Series>, n: nat)
    requires n + 1 == |list|
    ensures (forall i :: 0 <= i < |list| ==> SelectInstances(list[i].id) !in faults)
            == ((forall i :: 0 <= i < |list[..n]| ==> SelectInstances(list[..n][i].id) !in faults)
                && SelectInstances(list[n].id) !in faults)
  {
    assert forall i :: 0 <= i < n ==> list[..n][i] == list[i];
  }

  /** The series loop succeeds exactly when no instance query throws. */
  lemma {:induction false} FillSeriesOk(a: Archive, root: string, study: string, faults: set<Query>,
                                        m: map<string, string>, list: seq<Series>)
    ensures FillSeries(a, root, study, faults, m, list).ok
            <==> forall i :: 0 <= i < |list| ==> SelectInstances(list[i].id) !in faults
    decreases |list|
  {
    if list != [] {
      FillSeriesOk(a, root, study, faults, m, list[..|list| - 1]);
      FillSeriesOkStep(a, root, study, faults, m, list);
      InstancesClearStep(faults, list, |list| - 1);
    }
  }

  /** The whole call returns true exactly when the study query does not
      throw and finds the study, the series query of its first match does
      not throw, and neither does the instance query of any of those
      series. */
  lemma EnumerateOk(a: Archive, root: string, study: string, faults: set<Query>, m: map<string, string>)
    ensures Enumerate(a, root, study, faults, m).ok <==>
      && SelectStudies(study) !in faults
      && StudiesWithUid(a, study) != []
      && SelectSeries(StudiesWithUid(a, study)[0].id) !in faults
      && forall s :: s in SeriesOf(a, StudiesWithUid(a, study)[0].id) ==> SelectInstances(s.id) !in faults
  {
    if SelectStudies(study) !in faults && StudiesWithUid(a, study) != [] {
      var list := SeriesOf(a, StudiesWithUid(a, study)[0].id);
      FillSeriesOk(a, root, study, faults, m, list);
      if forall i :: 0 <= i < |list| ==> SelectInstances(list[i].id) !in faults {
        forall s | s in list
          ensures SelectInstances(s.id) !in faults
        {
          var i :| 0 <= i < |list| && list[i] == s;
        }
      }
    }
  }

  /** A UID is held by no series of `list` exactly when it is not among
      all of their UIDs. */
  lemma {:induction false} FirstSeriesWithNone(a: Archive, list: seq<Series>, k: string)
    ensures FirstSeriesWith(a, list, k).None? <==> k !in AllSops(a, list)
    decreases |list|
  {
    if list != [] {
      FirstSeriesWithNone(a, list[..|list| - 1], k);
    }
  }

  /** The series loop keeps the caller's entries and adds only SOP instance
      UIDs of the listed series; when it succeeds it has added all of them. */
  lemma {:induction false} FillSeriesKeys(a: Archive, root: string, study: string, faults: set<Query>,
                                          m: map<string, string>, list: seq<Series>)
    ensures var r := FillSeries(a, root, study, faults, m, list);
      && (forall k :: k in m ==> k in r.files && r.files[k] == m[k])
      && r.files.Keys <= m.Keys + AllSops(a, list)
      && (r.ok ==> r.files.Keys == m.Keys + AllSops(a, list))
    decreases |list|
  {
    if list != [] {
      var n := |list| - 1;
      var init := list[..n];
      FillSeriesKeys(a, root, study, faults, m, init);
      var prev := FillSeries(a, root, study, faults, m, init);
      assert AllSops(a, list) == AllSops(a, init) + SeriesSops(a, list[n]);
      if prev.ok && SelectInstances(list[n].id) !in faults {
        var dir := SeriesDir(root, study, list[n].seriesInstanceUid);
        InsertInstancesEntries(prev.files, dir, InstancesOf(a, list[n].id));
        assert FillSeries(a, root, study, faults, m, list).files
               == InsertInstances(prev.files, dir, InstancesOf(a, list[n].id));
      }
    }
  }

  /** `path` is the file of UID `k` under the first series of `list` that
      holds an instance with that UID. */
  ghost predicate FiledUnderFirst(a: Archive, root: string, study: string, list: seq<Series>,
                                  k: string, path: string)
  {
    && FirstSeriesWith(a, list, k).Some?
    && path == FilePath(root, study, list[FirstSeriesWith(a, list, k).value].seriesInstanceUid, k)
  }

  /** Each UID the series loop adds is filed under the FIRST series that
      holds it: a later series with the same UID does not overwrite it. */
  lemma {:induction false} FillSeriesFirstWins(a: Archive, root: string, study: string, faults: set<Query>,
                                               m: map<string, string>, list: seq<Series>)
    ensures var r := FillSeries(a, root, study, faults, m, list);
      forall k :: k in r.files && k !in m ==> FiledUnderFirst(a, root, study, list, k, r.files[k])
    decreases |list|
  {
    if list != [] {
      var n := |list| - 1;
      var init := list[..n];
      FillSeriesFirstWins(a, root, study, faults, m, init);
      var prev := FillSeries(a, root, study, faults, m, init);
      var r := FillSeries(a, root, study, faults, m, list);
      forall k | k in prev.files && k !in m
        ensures FirstSeriesWith(a, list, k) == FirstSeriesWith(a, init, k)
        ensures FiledUnderFirst(a, root, study, list, k, prev.files[k])
      {
        assert FiledUnderFirst(a, root, study, init, k, prev.files[k]);
        assert init[FirstSeriesWith(a, init, k).value] == list[FirstSeriesWith(a, init, k).value];
      }
      if prev.ok && SelectInstances(list[n].id) !in faults {
        FillSeriesKeys(a, root, study, faults, m, init);
        var dir := SeriesDir(root, study, list[n].seriesInstanceUid);
        InsertInstancesEntries(prev.files, dir, InstancesOf(a, list[n].id));
        assert r.files == InsertInstances(prev.files, dir, InstancesOf(a, list[n].id));
        forall k | k in r.files && k !in m && k !in prev.files
          ensures FiledUnderFirst(a, root, study, list, k, r.files[k])
        {
          assert k !in AllSops(a, init);
          FirstSeriesWithNone(a, init, k);
          assert k in SeriesSops(a, list[n]);
          assert FirstSeriesWith(a, list, k) == Some(n);
        }
      }
    }
  }

  /** What a successful enumeration holds: the caller's entries untouched,
      plus one entry per SOP instance UID of the first matching study, keyed
      by that UID and filed under the first of the study's series holding it.
      A failed one may still have added entries, but only such entries. */
  lemma EnumerateEntries(a: Archive, root: string, study: string, faults: set<Query>,
                         m: map<string, string>)
    ensures var r := Enumerate(a, root, study, faults, m);
      && (forall k :: k in m ==> k in r.files && r.files[k] == m[k])
      && (r.files != m ==> StudiesWithUid(a, study) != [])
      && (StudiesWithUid(a, study) != [] ==>
            var list := SeriesOf(a, StudiesWithUid(a, study)[0].id);
            && r.files.Keys <= m.Keys + AllSops(a, list)
            && (r.ok ==> r.files.Keys == m.Keys + AllSops(a, list))
            && (forall k :: k in r.files && k !in m ==> FiledUnderFirst(a, root, study, list, k, r.files[k])))
  {
    var studies := StudiesWithUid(a, study);
    if studies != [] {
      FillSeriesKeys(a, root, study, faults, m, SeriesOf(a, studies[0].id));
      FillSeriesFirstWins(a, root, study, faults, m, SeriesOf(a, studies[0].id));
    }
  }

  /** Once an instance query has thrown, the later series change nothing:
      the call returns false with whatever the earlier series added. */
  lemma {:induction false} FailureSticks(a: Archive, root: string, study: string, faults: set<Query>,
                                         m: map<string, string>, list: seq<Series>, p: nat)
    requires p <= |list|
    requires !FillSeries(a, root, study, faults, m, list[..p]).ok
    ensures FillSeries(a, root, study, faults, m, list) == FillSeries(a, root, study, faults, m, list[..p])
    decreases |list| - p
  {
    if p < |list| {
      var n := |list| - 1;
      assert list[..n][..p] == list[..p];
      FailureSticks(a, root, study, faults, m, list[..n], p);
    } else {
      assert list[..p] == list;
    }
  }
}
