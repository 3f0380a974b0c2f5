/** Output file names of one garment (main.py:73-74, 90-91, 105-106), built
    from the garment index string `"{entry_number}_{idx}"` (main.py:153), and
    the proof that distinct (entry, garment) pairs never share a file. */
module Naming {
  import opened Json

  const DOWNLOAD_DIR := "downloaded_garments"

  predicate IsDigits(s: string)
  {
    forall i :: 0 <= i < |s| ==> '0' <= s[i] <= '9'
  }

  function DigitChar(d: nat): (c: char)
    requires d < 10
    ensures '0' <= c <= '9' && c as int - '0' as int == d
  {
    ('0' as int + d) as char
  }

  /** `str(n)` for a non-negative integer: its decimal digits, no sign. */
  function Decimal(n: nat): (s: string)
    ensures s != [] && IsDigits(s)
  {
    if n < 10 then [DigitChar(n)] else Decimal(n / 10) + [DigitChar(n % 10)]
  }

  /** The number a string of decimal digits denotes. */
  function ParseDecimal(s: string): nat
    requires IsDigits(s)
  {
    if s == [] then 0 else ParseDecimal(s[..|s| - 1]) * 10 + (s[|s| - 1] as int - '0' as int)
  }

  lemma {:induction false} ParseDecimalOfDecimal(n: nat)
    ensures ParseDecimal(Decimal(n)) == n
  {
    var s := Decimal(n);
    if n >= 10 {
      assert s[..|s| - 1] == Decimal(n / 10);
      ParseDecimalOfDecimal(n / 10);
    }
  }

  /** The garment index `f"{entry_number}_{idx}"` of main.py:153. */
  function GarmentIndex(entry: nat, idx: nat): string
  {
    Decimal(entry) + "_" + Decimal(idx)
  }

  /** Position of the first `c` in `s`, or `|s|` when there is none. */
  function IndexOf(s: string, c: char): (k: nat)
    ensures k <= |s|
    ensures k < |s| ==> s[k] == c
    ensures forall j :: 0 <= j < k ==> s[j] != c
  {
    if s == [] then 0 else if s[0] == c then 0 else 1 + IndexOf(s[1..], c)
  }

  /** Splits a garment index back into its entry number and garment position. */
  function ParseGarmentIndex(s: string): Option<(nat, nat)>
  {
    var k := IndexOf(s, '_');
    if k < |s| && IsDigits(s[..k]) && IsDigits(s[k + 1..])
    then Some((ParseDecimal(s[..k]), ParseDecimal(s[k + 1..])))
    else None
  }

  /** The garment index determines the pair it was built from. */
  lemma GarmentIndexRoundTrip(entry: nat, idx: nat)
    ensures ParseGarmentIndex(GarmentIndex(entry, idx)) == Some((entry, idx))
  {
    var a, b := Decimal(entry), Decimal(idx);
    var s := GarmentIndex(entry, idx);
    assert s[|a|] == '_';
    var k := IndexOf(s, '_');
    assert k == |a|;
    assert s[..k] == a;
    assert s[k + 1..] == b;
    ParseDecimalOfDecimal(entry);
    ParseDecimalOfDecimal(idx);
  }

  lemma GarmentIndexInjective(e1: nat, i1: nat, e2: nat, i2: nat)
    requires GarmentIndex(e1, i1) == GarmentIndex(e2, i2)
    ensures e1 == e2 && i1 == i2
  {
    GarmentIndexRoundTrip(e1, i1);
    GarmentIndexRoundTrip(e2, i2);
  }

  function DownloadFileName(index: string): string { "garment_" + index + ".jpg" }
  function MaskFileName(index: string): string { "garment_" + index + "_mask.png" }
  function SegmentFileName(index: string): string { "garment_" + index + "_segmented.png" }

  /** `os.path.join(dir, name)` with two arguments, as posixpath does it. */
  function Join(dir: string, name: string): string
  {
    if |name| > 0 && name[0] == '/' then name
    else if dir == [] || dir[|dir| - 1] == '/' then dir + name
    else dir + "/" + name
  }

  /** What `Join(dir, name)` puts in front of a relative `name`. */
  function DirPrefix(dir: string): string
  {
    if dir == [] || dir[|dir| - 1] == '/' then dir else dir + "/"
  }

  /** `os.path.abspath(p)` for the working directory `cwd`: a relative path is
      joined to `cwd`, dropping one leading "./". */
  function AbsPath(cwd: string, p: string): string
  {
    if |p| > 0 && p[0] == '/' then p
    else Join(cwd, if |p| >= 2 && p[..2] == "./" then p[2..] else p)
  }

  predicate EndsWith(s: string, suffix: string)
  {
    |suffix| <= |s| && s[|s| - |suffix|..] == suffix
  }

  function DownloadPath(index: string): string { Join(DOWNLOAD_DIR, DownloadFileName(index)) }
  function MaskPath(maskDir: string, index: string): string { Join(maskDir, MaskFileName(index)) }
  function SegmentPath(segmentDir: string, index: string): string { Join(segmentDir, SegmentFileName(index)) }

  /** Every file one garment may write: the download, the mask, the composite. */
  function UnitPaths(maskDir: string, segmentDir: string, index: string): set<string>
  {
    {DownloadPath(index), MaskPath(maskDir, index), SegmentPath(segmentDir, index)}
  }

  lemma JoinRelative(dir: string, name: string)
    requires |name| > 0 && name[0] != '/'
    ensures Join(dir, name) == DirPrefix(dir) + name
  {
  }

  lemma EndsWithAppended(front: string, suffix: string)
    ensures EndsWith(front + suffix, suffix)
  {
    assert (front + suffix)[|front|..] == suffix;
  }

  /** A relative path with one leading "./" dropped: what `AbsPath` joins to
      the working directory, still `front + name` for some `front`. */
  lemma StrippedKeepsName(pre: string, name: string) returns (front: string)
    requires |name| > 0 && name[0] != '.'
    requires |pre| == 1 ==> pre[0] == '/'
    requires (pre + name)[0] != '/'
    ensures (if |pre + name| >= 2 && (pre + name)[..2] == "./" then (pre + name)[2..] else pre + name) == front + name
  {
    var p := pre + name;
    if |p| >= 2 && p[..2] == "./" {
      assert |pre| >= 2;
      front := pre[2..];
      assert p[2..] == front + name;
    } else {
      front := pre;
    }
  }

  /** The recorded absolute path of a file still ends with the file's name. */
  lemma AbsPathKeepsName(cwd: string, dir: string, name: string)
    requires |name| > 0 && name[0] != '/' && name[0] != '.'
    ensures EndsWith(AbsPath(cwd, Join(dir, name)), name)
  {
    var pre := DirPrefix(dir);
    var p := Join(dir, name);
    assert p == pre + name;
    if |p| > 0 && p[0] == '/' {
      EndsWithAppended(pre, name);
    } else {
      var front := StrippedKeepsName(pre, name);
      var q := front + name;
      if q[0] == '/' {
        assert AbsPath(cwd, p) == q;
        EndsWithAppended(front, name);
      } else {
        assert AbsPath(cwd, p) == DirPrefix(cwd) + q;
        assert DirPrefix(cwd) + q == (DirPrefix(cwd) + front) + name;
        EndsWithAppended(DirPrefix(cwd) + front, name);
      }
    }
  }

  /** Strings of the form `p + x + q` and `p + y + q` agree only when `x == y`. */
  lemma CancelAffixes(p: string, x: string, y: string, q: string)
    requires p + x + q == p + y + q
    ensures x == y
  {
    var s := p + x + q;
    assert |x| == |y|;
    assert x == s[|p|..|p| + |x|];
    assert y == (p + y + q)[|p|..|p| + |y|];
  }

  /** Within one directory, file names built from distinct garment indices differ. */
  lemma NamesOfDistinctUnits(dir: string, kind: string, e1: nat, i1: nat, e2: nat, i2: nat)
    requires (e1, i1) != (e2, i2)
    ensures Join(dir, "garment_" + GarmentIndex(e1, i1) + kind) != Join(dir, "garment_" + GarmentIndex(e2, i2) + kind)
  {
    var x, y := GarmentIndex(e1, i1), GarmentIndex(e2, i2);
    JoinRelative(dir, "garment_" + x + kind);
    JoinRelative(dir, "garment_" + y + kind);
    var p := DirPrefix(dir) + "garment_";
    assert Join(dir, "garment_" + x + kind) == p + x + kind;
    assert Join(dir, "garment_" + y + kind) == p + y + kind;
    if Join(dir, "garment_" + x + kind) == Join(dir, "garment_" + y + kind) {
      CancelAffixes(p, x, y, kind);
      GarmentIndexInjective(e1, i1, e2, i2);
    }
  }

  /** A file joined under any folder keeps every ending of its name. */
  lemma PathEnding(dir: string, front: string, suffix: string)
    requires |front| > 0 && front[0] != '/'
    ensures EndsWith(Join(dir, front + suffix), suffix)
  {
    JoinRelative(dir, front + suffix);
    assert Join(dir, front + suffix) == (DirPrefix(dir) + front) + suffix;
    EndsWithAppended(DirPrefix(dir) + front, suffix);
  }

  /** Strings with different endings of the same length differ. */
  lemma EndingsDiffer(s: string, t: string, a: string, b: string)
    requires EndsWith(s, a) && EndsWith(t, b) && |a| == |b| && a != b
    ensures s != t
  {
  }

  /** A download path ends in ".jpg". */
  lemma DownloadEnding(x: string)
    ensures EndsWith(DownloadPath(x), ".jpg")
  {
    PathEnding(DOWNLOAD_DIR, "garment_" + x, ".jpg");
  }

  /** A mask path ends in ".png", and its last five characters are "k.png". */
  lemma MaskEndings(maskDir: string, x: string)
    ensures EndsWith(MaskPath(maskDir, x), ".png") && EndsWith(MaskPath(maskDir, x), "k.png")
  {
    var g := "garment_" + x;
    assert "_mask.png" == "_mask" + ".png" == "_mas" + "k.png";
    assert MaskFileName(x) == (g + "_mask") + ".png";
    assert MaskFileName(x) == (g + "_mas") + "k.png";
    PathEnding(maskDir, g + "_mask", ".png");
    PathEnding(maskDir, g + "_mas", "k.png");
  }

  /** A composite path ends in ".png", and its last five characters are "d.png". */
  lemma SegmentEndings(segmentDir: string, x: string)
    ensures EndsWith(SegmentPath(segmentDir, x), ".png") && EndsWith(SegmentPath(segmentDir, x), "d.png")
  {
    var g := "garment_" + x;
    assert "_segmented.png" == "_segmented" + ".png" == "_segmente" + "d.png";
    assert SegmentFileName(x) == (g + "_segmented") + ".png";
    assert SegmentFileName(x) == (g + "_segmente") + "d.png";
    PathEnding(segmentDir, g + "_segmented", ".png");
    PathEnding(segmentDir, g + "_segmente", "d.png");
  }

  /** The download, mask and composite of any two garments are told apart by
      their endings: ".jpg" against ".png", "k.png" against "d.png". */
  lemma KindsNeverCollide(maskDir: string, segmentDir: string, x: string, y: string)
    ensures DownloadPath(x) != MaskPath(maskDir, y)
    ensures DownloadPath(x) != SegmentPath(segmentDir, y)
    ensures MaskPath(maskDir, x) != SegmentPath(segmentDir, y)
  {
    DownloadEnding(x);
    MaskEndings(maskDir, x);
    MaskEndings(maskDir, y);
    SegmentEndings(segmentDir, y);
    EndingsDiffer(DownloadPath(x), MaskPath(maskDir, y), ".jpg", ".png");
    EndingsDiffer(DownloadPath(x), SegmentPath(segmentDir, y), ".jpg", ".png");
    EndingsDiffer(MaskPath(maskDir, x), SegmentPath(segmentDir, y), "k.png", "d.png");
  }

  /** Two sets of three elements with no element in common are disjoint. */
  lemma TriplesDisjoint<T>(a1: T, b1: T, c1: T, a2: T, b2: T, c2: T)
    requires a1 != a2 && a1 != b2 && a1 != c2
    requires b1 != a2 && b1 != b2 && b1 != c2
    requires c1 != a2 && c1 != b2 && c1 != c2
    ensures {a1, b1, c1} !! {a2, b2, c2}
  {
  }

  /** A garment writes three distinct files. */
  lemma UnitPathsDistinct(maskDir: string, segmentDir: string, x: string)
    ensures |UnitPaths(maskDir, segmentDir, x)| == 3
  {
    var d, m, s := DownloadPath(x), MaskPath(maskDir, x), SegmentPath(segmentDir, x);
    KindsNeverCollide(maskDir, segmentDir, x, x);
    assert {d, m, s} == {d} + {m} + {s};
    assert |{d} + {m}| == 2;
  }

  /** A garment writes three distinct files, and no file of one garment is a
      file of another garment of the same run. */
  lemma UnitPathsDisjoint(maskDir: string, segmentDir: string, e1: nat, i1: nat, e2: nat, i2: nat)
    ensures |UnitPaths(maskDir, segmentDir, GarmentIndex(e1, i1))| == 3
    ensures (e1, i1) != (e2, i2) ==>
      UnitPaths(maskDir, segmentDir, GarmentIndex(e1, i1)) !! UnitPaths(maskDir, segmentDir, GarmentIndex(e2, i2))
  {
    var x, y := GarmentIndex(e1, i1), GarmentIndex(e2, i2);
    UnitPathsDistinct(maskDir, segmentDir, x);
    if (e1, i1) != (e2, i2) {
      KindsNeverCollide(maskDir, segmentDir, x, y);
      KindsNeverCollide(maskDir, segmentDir, y, x);
      NamesOfDistinctUnits(DOWNLOAD_DIR, ".jpg", e1, i1, e2, i2);
      NamesOfDistinctUnits(maskDir, "_mask.png", e1, i1, e2, i2);
      NamesOfDistinctUnits(segmentDir, "_segmented.png", e1, i1, e2, i2);
      TriplesDisjoint(DownloadPath(x), MaskPath(maskDir, x), SegmentPath(segmentDir, x),
                      DownloadPath(y), MaskPath(maskDir, y), SegmentPath(segmentDir, y));
    }
  }
}
