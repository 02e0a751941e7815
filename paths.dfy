/** Storage paths as built with `boost::filesystem::path::operator/=`
    (filesystem version 3, POSIX separator). */
module Paths {

  const Separator: char := '/'

  /** `p /= q`: an empty `q` changes nothing; otherwise one separator is
      put between the two unless `p` is empty, `p` already ends with one,
      or `q` starts with one. */
  function Append(p: string, q: string): string
  {
    if q == [] then p
    else if q[0] == Separator || p == [] || p[|p| - 1] == Separator then p + q
    else p + [Separator] + q
  }

  /** An append keeps both operands, in order, and adds at most one
      character between them, which is then the separator. */
  lemma AppendParts(p: string, q: string)
    ensures var r := Append(p, q);
      && |p| + |q| <= |r| <= |p| + |q| + 1
      && r[..|p|] == p && r[|r| - |q|..] == q
      && (q != [] && |r| == |p| + |q| + 1 ==> r[|p|] == Separator)
  {
    var r := Append(p, q);
    if q != [] && !(q[0] == Separator || p == [] || p[|p| - 1] == Separator) {
      assert r == p + ([Separator] + q);
    }
  }

  /** The directory a series' files are kept in: root / study / series. */
  function SeriesDir(root: string, studyUid: string, seriesUid: string): string
  {
    Append(Append(root, studyUid), seriesUid)
  }

  /** The file of one instance: root / study / series / (sop + ".dcm"). */
  function FilePath(root: string, studyUid: string, seriesUid: string, sopUid: string): string
  {
    Append(SeriesDir(root, studyUid, seriesUid), sopUid + ".dcm")
  }

  /** Whatever the components, the file path ends with the SOP instance
      UID and the ".dcm" extension. */
  lemma FilePathEnds(root: string, studyUid: string, seriesUid: string, sopUid: string)
    ensures var r := FilePath(root, studyUid, seriesUid, sopUid);
      |r| >= |sopUid| + 4 && r[|r| - |sopUid| - 4..] == sopUid + ".dcm"
  {
    AppendParts(SeriesDir(root, studyUid, seriesUid), sopUid + ".dcm");
  }

  /** A path component that neither starts nor ends with a separator, as
      DICOM UIDs (digits and dots) always are. */
  predicate Plain(c: string)
  {
    c != [] && c[0] != Separator && c[|c| - 1] != Separator
  }

  /** The root as a directory prefix: a separator is added unless it is
      empty or already ends with one. */
  function DirPrefix(root: string): (r: string)
    ensures r == root || r == root + [Separator]
  {
    if root == [] || root[|root| - 1] == Separator then root else root + [Separator]
  }

  /** Appending a component that does not start with a separator puts
      exactly the directory prefix in front of it. */
  lemma AppendUnrooted(p: string, q: string)
    requires q != [] && q[0] != Separator
    ensures Append(p, q) == DirPrefix(p) + q
  {
  }

  /** A plain component leaves a path that does not end with a separator. */
  lemma AppendPlainEnd(p: string, q: string)
    requires Plain(q)
    ensures Append(p, q) != [] && Append(p, q)[|Append(p, q)| - 1] != Separator
  {
    AppendUnrooted(p, q);
    assert Append(p, q)[|Append(p, q)| - 1] == q[|q| - 1];
  }

  /** With plain UIDs the file path is exactly
      root/studyUid/seriesUid/sopUid.dcm, with no separator doubled. */
  lemma {:induction false} FilePathShape(root: string, studyUid: string, seriesUid: string, sopUid: string)
    requires Plain(studyUid) && Plain(seriesUid) && (sopUid == [] || sopUid[0] != Separator)
    ensures FilePath(root, studyUid, seriesUid, sopUid)
            == DirPrefix(root) + studyUid + "/" + seriesUid + "/" + sopUid + ".dcm"
  {
    var study := Append(root, studyUid);
    AppendUnrooted(root, studyUid);
    AppendPlainEnd(root, studyUid);
    var series := Append(study, seriesUid);
    AppendUnrooted(study, seriesUid);
    AppendPlainEnd(study, seriesUid);
    var file := sopUid + ".dcm";
    AppendUnrooted(series, file);
    Joined(DirPrefix(root), studyUid, seriesUid, sopUid);
  }

  /** The concatenation the shape is stated with, grouped as the appends
      build it. */
  lemma Joined(prefix: string, studyUid: string, seriesUid: string, sopUid: string)
    ensures (prefix + studyUid + "/") + seriesUid + "/" + (sopUid + ".dcm")
            == prefix + studyUid + "/" + seriesUid + "/" + sopUid + ".dcm"
  {
  }
}
