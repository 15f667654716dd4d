/**
 * File names the services build: zero-padded frame image names that the
 * encoder reads back through a printf-style pattern, and the pathlib
 * parent/name/stem operations behind the fallback output path.
 * Paths are POSIX strings already in pathlib's normal form.
 */
module Naming {
  import opened Wrappers

  // ----- Decimal formatting -----

  predicate IsDigit(c: char) { '0' <= c <= '9' }

  function DigitChar(d: nat): (c: char)
    requires d < 10
    ensures IsDigit(c)
  {
    ('0' as int + d) as char
  }

  function DigitValue(c: char): nat
    requires IsDigit(c)
  {
    (c as int - '0' as int) as nat
  }

  /** The shortest decimal spelling of n ("0" for zero). */
  function Digits(n: nat): (r: string)
    ensures |r| >= 1 && forall k :: 0 <= k < |r| ==> IsDigit(r[k])
    decreases n
  {
    if n < 10 then [DigitChar(n)] else Digits(n / 10) + [DigitChar(n % 10)]
  }

  function Zeros(k: nat): (r: string)
    ensures |r| == k && forall j :: 0 <= j < k ==> r[j] == '0'
  {
    if k == 0 then "" else Zeros(k - 1) + "0"
  }

  /** Python's format(n, "0<width>d") for n >= 0: the digits of n left-padded with zeros. */
  function FormatInt(n: nat, width: nat): string
  {
    var ds := Digits(n);
    (if |ds| < width then Zeros(width - |ds|) else "") + ds
  }

  /** The number a string of decimal digits denotes. */
  function DecimalValue(s: string): nat
    requires forall k :: 0 <= k < |s| ==> IsDigit(s[k])
    decreases |s|
  {
    if |s| == 0 then 0 else DecimalValue(s[..|s| - 1]) * 10 + DigitValue(s[|s| - 1])
  }

  lemma {:induction false} DigitsValue(n: nat)
    ensures DecimalValue(Digits(n)) == n
    decreases n
  {
    if n >= 10 {
      DigitsValue(n / 10);
      var ds := Digits(n);
      assert ds[..|ds| - 1] == Digits(n / 10);
    }
  }

  lemma {:induction false} LeadingZerosValue(k: nat, s: string)
    requires forall j :: 0 <= j < |s| ==> IsDigit(s[j])
    ensures forall j :: 0 <= j < |Zeros(k) + s| ==> IsDigit((Zeros(k) + s)[j])
    ensures DecimalValue(Zeros(k) + s) == DecimalValue(s)
    decreases |s|
  {
    var z := Zeros(k);
    assert forall j :: 0 <= j < |z + s| ==> IsDigit((z + s)[j]) by {
      forall j | 0 <= j < |z + s| ensures IsDigit((z + s)[j]) {
        if j < |z| { assert (z + s)[j] == z[j]; } else { assert (z + s)[j] == s[j - |z|]; }
      }
    }
    if |s| == 0 {
      assert z + s == z;
      ZerosValue(k);
    } else {
      LeadingZerosValue(k, s[..|s| - 1]);
      assert (z + s)[..|z + s| - 1] == z + s[..|s| - 1];
    }
  }

  lemma {:induction false} ZerosValue(k: nat)
    ensures forall j :: 0 <= j < |Zeros(k)| ==> IsDigit(Zeros(k)[j])
    ensures DecimalValue(Zeros(k)) == 0
  {
    if k > 0 {
      ZerosValue(k - 1);
      assert Zeros(k)[..k - 1] == Zeros(k - 1);
    }
  }

  /**
   * A formatted index is all digits, at least width long, and denotes the
   * index again, so distinct indices never format alike.
   */
  lemma FormatIntRoundTrip(n: nat, width: nat)
    ensures |FormatInt(n, width)| >= width
    ensures forall k :: 0 <= k < |FormatInt(n, width)| ==> IsDigit(FormatInt(n, width)[k])
    ensures DecimalValue(FormatInt(n, width)) == n
  {
    var ds := Digits(n);
    DigitsValue(n);
    if |ds| < width {
      LeadingZerosValue(width - |ds|, ds);
      assert FormatInt(n, width) == Zeros(width - |ds|) + ds;
    } else {
      assert FormatInt(n, width) == ds;
    }
  }

  // ----- Frame image names -----

  const FramePrefix: string := "frame_"
  const FrameSuffix: string := ".png"

  /** The encoder's input pattern for the frame images. */
  const FramePattern: string := "frame_%08d.png"

  /** f"frame_{i:08d}.png" */
  function FrameFileName(i: nat): string
  {
    FramePrefix + FormatInt(i, 8) + FrameSuffix
  }

  lemma FrameFileNameIndex(i: nat)
    ensures |FrameFileName(i)| >= 10
    ensures FrameFileName(i)[6..|FrameFileName(i)| - 4] == FormatInt(i, 8)
  {
    FormatIntRoundTrip(i, 8);
  }

  /** Distinct frame indices give distinct file names. */
  lemma FrameFileNameInjective(i: nat, j: nat)
    requires i != j
    ensures FrameFileName(i) != FrameFileName(j)
  {
    FrameFileNameIndex(i);
    FrameFileNameIndex(j);
    FormatIntRoundTrip(i, 8);
    FormatIntRoundTrip(j, 8);
  }

  function Prepend(c: char, r: Option<string>): Option<string>
  {
    if r.Some? then Some([c] + r.value) else None
  }

  /**
   * The file name a printf-style image-sequence pattern gives for frame
   * number n: "%%" is a literal percent sign, "%d" or "%0Wd" (one width
   * digit W) the zero-padded number; a pattern must hold exactly one number
   * directive, and any other use of "%" is rejected.
   */
  function Expand(pattern: string, n: nat, seen: bool): Option<string>
    decreases |pattern|
  {
    if |pattern| == 0 then (if seen then Some("") else None)
    else if pattern[0] != '%' then Prepend(pattern[0], Expand(pattern[1..], n, seen))
    else if |pattern| >= 2 && pattern[1] == '%' then Prepend('%', Expand(pattern[2..], n, seen))
    else if seen then None
    else if |pattern| >= 2 && pattern[1] == 'd' then
      var rest := Expand(pattern[2..], n, true);
      if rest.Some? then Some(FormatInt(n, 0) + rest.value) else None
    else if |pattern| >= 4 && pattern[1] == '0' && IsDigit(pattern[2]) && pattern[3] == 'd' then
      var rest := Expand(pattern[4..], n, true);
      if rest.Some? then Some(FormatInt(n, DigitValue(pattern[2])) + rest.value) else None
    else None
  }

  lemma {:induction false} ExpandLiteral(lit: string, rest: string, n: nat, seen: bool)
    requires forall k :: 0 <= k < |lit| ==> lit[k] != '%'
    ensures Expand(lit + rest, n, seen) ==
      var r := Expand(rest, n, seen);
      if r.Some? then Some(lit + r.value) else None
    decreases |lit|
  {
    if |lit| > 0 {
      assert (lit + rest)[0] == lit[0];
      assert (lit + rest)[1..] == lit[1..] + rest;
      ExpandLiteral(lit[1..], rest, n, seen);
      var r := Expand(rest, n, seen);
      if r.Some? {
        assert [lit[0]] + (lit[1..] + r.value) == lit + r.value;
      }
    } else {
      assert lit + rest == rest;
      var r := Expand(rest, n, seen);
      if r.Some? {
        assert lit + r.value == r.value;
      }
    }
  }

  lemma ExpandDirective(w: char, rest: string, n: nat)
    requires IsDigit(w)
    ensures Expand(['%', '0', w, 'd'] + rest, n, false) ==
      var r := Expand(rest, n, true);
      if r.Some? then Some(FormatInt(n, DigitValue(w)) + r.value) else None
  {
    var p := ['%', '0', w, 'd'] + rest;
    assert p[0] == '%' && p[1] == '0' && p[2] == w && p[3] == 'd';
    assert p[4..] == rest;
  }

  lemma SuffixExpands(i: nat)
    ensures Expand(FrameSuffix, i, true) == Some(FrameSuffix)
  {
    ExpandLiteral(FrameSuffix, "", i, true);
    assert FrameSuffix + "" == FrameSuffix;
  }

  lemma TailExpands(i: nat)
    ensures Expand(['%', '0', '8', 'd'] + FrameSuffix, i, false) == Some(FormatInt(i, 8) + FrameSuffix)
  {
    ExpandDirective('8', FrameSuffix, i);
    SuffixExpands(i);
  }

  /** The encoder's pattern names frame i exactly as the frame writer does. */
  lemma FramePatternExpands(i: nat)
    ensures Expand(FramePattern, i, false) == Some(FrameFileName(i))
  {
    var tail := ['%', '0', '8', 'd'] + FrameSuffix;
    var digits := FormatInt(i, 8);
    PatternParts();
    TailExpands(i);
    PrefixHasNoPercent();
    ExpandLiteral(FramePrefix, tail, i, false);
    assert Expand(FramePrefix + tail, i, false) == Some(FramePrefix + (digits + FrameSuffix));
    assert FramePrefix + (digits + FrameSuffix) == FrameFileName(i);
  }

  lemma PatternParts()
    ensures FramePattern == FramePrefix + (['%', '0', '8', 'd'] + FrameSuffix)
  {
  }

  lemma PrefixHasNoPercent()
    ensures forall k :: 0 <= k < |FramePrefix| ==> FramePrefix[k] != '%'
  {
  }

  // ----- Paths -----

  /** The index of the last occurrence of c in s. */
  function LastIndexOf(s: string, c: char): (r: Option<nat>)
    ensures r.Some? ==> r.value < |s| && s[r.value] == c && forall k :: r.value < k < |s| ==> s[k] != c
    ensures r.None? ==> forall k :: 0 <= k < |s| ==> s[k] != c
    decreases |s|
  {
    if |s| == 0 then None
    else if s[|s| - 1] == c then Some(|s| - 1)
    else LastIndexOf(s[..|s| - 1], c)
  }

  /** Path(p).name: the part after the last slash. */
  function Name(p: string): string
  {
    match LastIndexOf(p, '/')
    case None => p
    case Some(k) => p[k + 1..]
  }

  /** Path(p).parent: "." without a slash, "/" for a top-level entry. */
  function Parent(p: string): string
  {
    match LastIndexOf(p, '/')
    case None => "."
    case Some(k) => if k == 0 then "/" else p[..k]
  }

  /** Path(p).stem: the name without its last suffix; a leading dot is no suffix. */
  function Stem(name: string): string
  {
    match LastIndexOf(name, '.')
    case Some(i) => if 0 < i < |name| - 1 then name[..i] else name
    case None => name
  }

  /** str(Path(dir) / name) for a name without slashes. */
  function Join(dir: string, name: string): string
  {
    if dir == "." then name else if dir == "/" then "/" + name else dir + "/" + name
  }

  /** video_path.parent / f"enhanced_{video_path.stem}.mp4" */
  function FallbackOutputPath(videoPath: string): string
  {
    Join(Parent(videoPath), "enhanced_" + Stem(Name(videoPath)) + ".mp4")
  }

  lemma {:induction false} LastIndexOfSkips(s: string, t: string, c: char)
    requires forall k :: 0 <= k < |t| ==> t[k] != c
    ensures LastIndexOf(s + t, c) == LastIndexOf(s, c)
    decreases |t|
  {
    if |t| == 0 {
      assert s + t == s;
    } else {
      assert (s + t)[..|s + t| - 1] == s + t[..|t| - 1];
      LastIndexOfSkips(s, t[..|t| - 1], c);
    }
  }

  lemma JoinParts(dir: string, name: string)
    requires forall k :: 0 <= k < |name| ==> name[k] != '/'
    requires dir == "." || dir == "/" || (|dir| > 0 && dir == Parent(dir + "/x"))
    ensures Parent(Join(dir, name)) == dir
    ensures Name(Join(dir, name)) == name
  {
    var j := Join(dir, name);
    if dir == "." {
      assert LastIndexOf(j, '/') == None;
    } else if dir == "/" {
      LastIndexOfSkips("/", name, '/');
      assert j[1..] == name;
    } else {
      LastIndexOfSkips(dir + "/", name, '/');
      assert j == (dir + "/") + name;
      assert j[..|dir|] == dir && j[|dir| + 1..] == name;
      var x := dir + "/x";
      assert LastIndexOf(x, '/') == Some(|dir|);
    }
  }

  lemma ParentShape(p: string)
    ensures var d := Parent(p); d == "." || d == "/" || (|d| > 0 && d == Parent(d + "/x"))
  {
    match LastIndexOf(p, '/')
    case None =>
    case Some(k) =>
      if k > 0 {
        var d := p[..k];
        var x := d + "/x";
        assert x[k] == '/' && x[k + 1] == 'x';
        assert LastIndexOf(x, '/') == Some(k);
        assert x[..k] == d;
      }
  }

  /**
   * The fallback output sits in the input video's directory and is named
   * "enhanced_" + the input's stem + ".mp4".
   */
  lemma FallbackOutputInSameDirectory(videoPath: string)
    ensures Parent(FallbackOutputPath(videoPath)) == Parent(videoPath)
    ensures Name(FallbackOutputPath(videoPath)) == "enhanced_" + Stem(Name(videoPath)) + ".mp4"
  {
    var nm := Name(videoPath);
    var st := Stem(nm);
    var out := "enhanced_" + st + ".mp4";
    assert forall k :: 0 <= k < |nm| ==> nm[k] != '/';
    assert forall k :: 0 <= k < |st| ==> st[k] != '/';
    assert forall k :: 0 <= k < |out| ==> out[k] != '/' by {
      forall k | 0 <= k < |out| ensures out[k] != '/' {
        if 9 <= k < 9 + |st| { assert out[k] == st[k - 9]; }
      }
    }
    ParentShape(videoPath);
    JoinParts(Parent(videoPath), out);
  }
}
