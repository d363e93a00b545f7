/** The names of the raw files the simulated receivers write:
    `<fname>_d0_f<first frame, %012d>_<file index>.raw` under the output directory, built with
    boost::format and boost::filesystem (version 3 rules for `operator/` and
    `replace_extension`).  A new file starts every MAX_FRAMES_PER_FILE frames. */
module RawFiles {
  import opened Wrappers
  import opened Text

  const MAX_FRAMES_PER_FILE: nat := 20000

  /** `boost::str(boost::format("%s_d0_f%012d_%d") % fname % first % index)`. */
  function Stem(fname: string, first: nat, index: nat): string {
    fname + "_d0_f" + ZeroPad12(first) + "_" + NatToString(index)
  }

  /** `path(dir) / name`: a '/' is put between the two unless `dir` is empty, already ends in
      '/', or `name` starts with one. */
  function Join(dir: string, name: string): (r: string)
    ensures r == dir + name || r == dir + "/" + name
  {
    if dir != [] && dir[|dir| - 1] != '/' && name != [] && name[0] != '/' then dir + "/" + name
    else dir + name
  }

  /** What is left of `p` once the extension of its last component is cut off: the text
      before the last '.' that follows the last '/', or `None` when that component has no
      '.'. */
  function CutExtension(p: string): (r: Option<string>)
    ensures r.Some? ==> |r.value| < |p| && r.value == p[..|r.value|] && p[|r.value|] == '.'
    decreases |p|
  {
    if p == [] || p[|p| - 1] == '/' then None
    else if p[|p| - 1] == '.' then Some(p[..|p| - 1])
    else CutExtension(p[..|p| - 1])
  }

  /** `path::replace_extension(ext)` for an extension given without its dot. */
  function ReplaceExtension(p: string, ext: string): string {
    match CutExtension(p)
    case Some(q) => q + "." + ext
    case None => p + "." + ext
  }

  /** `generateFileName()` as written: the stem joined to the directory, then its extension
      replaced by "raw". */
  function FileNameAsWritten(dir: string, fname: string, first: nat, index: nat): string {
    ReplaceExtension(Join(dir, Stem(fname, first, index)), "raw")
  }

  /** The file name the format evidently intends: the whole stem followed by ".raw". */
  function FileName(dir: string, fname: string, first: nat, index: nat): string {
    Join(dir, Stem(fname, first, index)) + ".raw"
  }

  /** A raw file as the receivers open it: the output directory, the file name prefix, the
      number of its first frame and the file index. */
  datatype RawFile = RawFile(dir: string, prefix: string, firstFrame: nat, index: nat) {
    /** The path the file is opened under. */
    function Path(): string {
      FileName(dir, prefix, firstFrame, index)
    }
  }

  predicate Without(s: string, c: char) {
    forall i | 0 <= i < |s| :: s[i] != c
  }

  /** A tail without '.' and '/' does not move the extension, and a tail with a '/' but no
      '.' leaves no extension at all. */
  lemma {:induction false} CutExtensionAppend(a: string, b: string)
    requires Without(b, '.')
    ensures CutExtension(a + b) == if Without(b, '/') then CutExtension(a) else None
    decreases |b|
  {
    if b != [] {
      var last := b[|b| - 1];
      assert (a + b)[..|a + b| - 1] == a + b[..|b| - 1];
      assert (a + b)[|a + b| - 1] == last;
      CutExtensionAppend(a, b[..|b| - 1]);
      if last != '/' {
        assert Without(b, '/') <==> Without(b[..|b| - 1], '/');
      }
    } else {
      assert a + b == a;
    }
  }

  /** The part of the stem after the prefix holds no '.' and no '/'. */
  lemma StemTail(first: nat, index: nat)
    ensures Without("_d0_f" + ZeroPad12(first) + "_" + NatToString(index), '.')
    ensures Without("_d0_f" + ZeroPad12(first) + "_" + NatToString(index), '/')
  {
    ZeroPad12Reads(first);
    var z := ZeroPad12(first);
    var d := NatToString(index);
    var t := "_d0_f" + z + "_" + d;
    forall i | 0 <= i < |t|
      ensures t[i] != '.' && t[i] != '/'
    {
      if i < 5 {
      } else if i < 5 + |z| {
        assert t[i] == z[i - 5];
      } else if i == 5 + |z| {
      } else {
        assert t[i] == d[i - 6 - |z|];
      }
    }
  }

  /** Text after a non-empty name does not change where `Join` puts its '/'. */
  lemma JoinAppend(dir: string, p: string, t: string)
    requires p != []
    ensures Join(dir, p + t) == Join(dir, p) + t
  {
    assert (p + t)[0] == p[0];
  }

  lemma StemSplit(fname: string, z: string, d: string)
    ensures fname + "_d0_f" + z + "_" + d == (fname + "_") + ("d0_f" + z + "_" + d)
  {
    assert "_d0_f" == "_" + "d0_f";
  }

  /** The directory part `Join` puts in front of the stem, and the stem that follows it. */
  lemma JoinStem(dir: string, fname: string, first: nat, index: nat)
    ensures Join(dir, Stem(fname, first, index))
      == Join(dir, fname + "_") + ("d0_f" + ZeroPad12(first) + "_" + NatToString(index))
  {
    StemSplit(fname, ZeroPad12(first), NatToString(index));
    JoinAppend(dir, fname + "_", "d0_f" + ZeroPad12(first) + "_" + NatToString(index));
  }

  /** For a prefix without '.', the name as written is the intended one. */
  lemma FileNameWithoutDot(dir: string, fname: string, first: nat, index: nat)
    requires Without(fname, '.')
    ensures FileNameAsWritten(dir, fname, first, index) == FileName(dir, fname, first, index)
  {
    var s := Stem(fname, first, index);
    var t := "_d0_f" + ZeroPad12(first) + "_" + NatToString(index);
    StemTail(first, index);
    assert s == fname + t;
    assert Without(s, '.') by {
      forall i | 0 <= i < |s|
        ensures s[i] != '.'
      {
        if i >= |fname| {
          assert s[i] == t[i - |fname|];
        }
      }
    }
    if Join(dir, s) == dir + s {
      CutExtensionAppend(dir, s);
      if Without(s, '/') {
        assert s[0] != '/';
        assert dir == [] || dir[|dir| - 1] == '/';
      }
    } else {
      CutExtensionAppend(dir + "/", s);
      assert (dir + "/")[|dir + "/"| - 1] == '/';
    }
  }

  /** With a '.' in the prefix, the file name as written no longer depends on the first frame
      or the file index: whatever follows the last '.' is taken for an extension and
      replaced. */
  lemma FileNameAsWrittenIgnoresFrame(dir: string, fname: string, first: nat, index: nat)
    requires Without(fname, '/') && CutExtension(Join(dir, fname + "_")).Some?
    ensures FileNameAsWritten(dir, fname, first, index) == CutExtension(Join(dir, fname + "_")).value + ".raw"
  {
    var p := Join(dir, fname + "_");
    var t := "d0_f" + ZeroPad12(first) + "_" + NatToString(index);
    StemTail(first, index);
    JoinStem(dir, fname, first, index);
    assert Without(t, '.') && Without(t, '/') by {
      var u := "_d0_f" + ZeroPad12(first) + "_" + NatToString(index);
      assert forall i | 0 <= i < |t| :: t[i] == u[i + 1];
    }
    CutExtensionAppend(p, t);
    assert Join(dir, Stem(fname, first, index)) == p + t;
  }

  /** The input that shows it: with the prefix "run.v1" in "/tmp", every file of every
      acquisition is "/tmp/run.raw", so the file a rollover opens at frame 20000 replaces the
      first one. */
  lemma FileNameAsWrittenCollides(first: nat, index: nat)
    ensures FileNameAsWritten("/tmp", "run.v1", first, index) == "/tmp/run.raw"
  {
    RunPrefixCut();
    assert Without("run.v1", '/');
    assert "run.v1" + "_" == "run.v1_";
    FileNameAsWrittenIgnoresFrame("/tmp", "run.v1", first, index);
  }

  lemma RunPrefixCut()
    ensures CutExtension(Join("/tmp", "run.v1_")) == Some("/tmp/run")
  {
    var a: string := "/tmp/run.";
    var b: string := "v1_";
    assert Join("/tmp", "run.v1_") == a + b;
    assert Without(b, '.') && Without(b, '/');
    CutExtensionAppend(a, b);
    assert a[|a| - 1] == '.' && a[..|a| - 1] == "/tmp/run";
  }

  /** The position of the first '_' in `s`, or |s| when there is none. */
  function UnderscoreAt(s: string): nat
    decreases |s|
  {
    if s == [] || s[0] == '_' then 0 else 1 + UnderscoreAt(s[1..])
  }

  lemma {:induction false} UnderscoreAfterDigits(z: string, d: string)
    requires AllDigits(z)
    ensures UnderscoreAt(z + "_" + d) == |z|
    decreases |z|
  {
    if z != [] {
      assert (z + "_" + d)[1..] == z[1..] + "_" + d;
      UnderscoreAfterDigits(z[1..], d);
    } else {
      assert z + "_" + d == "_" + d;
    }
  }

  /** Digits, one '_', digits: the '_' can only sit in one place. */
  lemma DigitsUnderscoreUnique(z1: string, d1: string, z2: string, d2: string)
    requires AllDigits(z1) && AllDigits(z2)
    requires z1 + "_" + d1 == z2 + "_" + d2
    ensures z1 == z2 && d1 == d2
  {
    var s := z1 + "_" + d1;
    UnderscoreAfterDigits(z1, d1);
    UnderscoreAfterDigits(z2, d2);
    assert z1 == s[..|z1|] == z2;
    assert d1 == s[|z1| + 1..] == d2;
  }

  lemma CancelAround(p: string, a: string, b: string, q: string)
    requires p + a + q == p + b + q
    ensures a == b
  {
    assert |a| == |b|;
    assert a == (p + a + q)[|p|..|p| + |a|];
  }

  /** The intended name: the directory part, the frame and index part, the extension. */
  lemma FileNameParts(dir: string, fname: string, first: nat, index: nat)
    ensures FileName(dir, fname, first, index)
      == Join(dir, fname + "_") + ("d0_f" + ZeroPad12(first) + "_" + NatToString(index)) + ".raw"
  {
    JoinStem(dir, fname, first, index);
  }

  /** Equal names built from the same directory part carry the same digit fields. */
  lemma NamePartsUnique(p: string, z1: string, d1: string, z2: string, d2: string)
    requires AllDigits(z1) && AllDigits(z2)
    requires p + ("d0_f" + z1 + "_" + d1) + ".raw" == p + ("d0_f" + z2 + "_" + d2) + ".raw"
    ensures z1 == z2 && d1 == d2
  {
    var t1 := "d0_f" + z1 + "_" + d1;
    var t2 := "d0_f" + z2 + "_" + d2;
    CancelAround(p, t1, t2, ".raw");
    assert z1 + "_" + d1 == t1[4..];
    assert z2 + "_" + d2 == t2[4..];
    DigitsUnderscoreUnique(z1, d1, z2, d2);
  }

  /** The intended names tell files apart: a different first frame or file index gives a
      different name. */
  lemma FileNameInjective(dir: string, fname: string, f1: nat, i1: nat, f2: nat, i2: nat)
    ensures FileName(dir, fname, f1, i1) == FileName(dir, fname, f2, i2) <==> f1 == f2 && i1 == i2
  {
    if FileName(dir, fname, f1, i1) == FileName(dir, fname, f2, i2) {
      FileNameParts(dir, fname, f1, i1);
      FileNameParts(dir, fname, f2, i2);
      ZeroPad12Reads(f1);
      ZeroPad12Reads(f2);
      NamePartsUnique(Join(dir, fname + "_"), ZeroPad12(f1), NatToString(i1), ZeroPad12(f2), NatToString(i2));
    }
  }
}
