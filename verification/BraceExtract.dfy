/**
 Pulling the first complete JSON object out of a model's reply (`ai_providers.py`): strip the text, drop the markdown
 fence lines, and match braces from the first opening one.
 */
module BraceExtract {

  // ----- stripping -----

  /** The characters `str.strip` removes. */
  predicate Space(c: char) {
    var u := c as int;
    || 0x09 <= u <= 0x0D || 0x1C <= u <= 0x20 || u == 0x85 || u == 0xA0 || u == 0x1680
    || 0x2000 <= u <= 0x200A || u == 0x2028 || u == 0x2029 || u == 0x202F || u == 0x205F || u == 0x3000
  }

  function LeftStrip(s: string): string {
    if s != "" && Space(s[0]) then LeftStrip(s[1..]) else s
  }

  function RightStrip(s: string): string {
    if s != "" && Space(s[|s| - 1]) then RightStrip(s[..|s| - 1]) else s
  }

  function Strip(s: string): string {
    RightStrip(LeftStrip(s))
  }

  ghost predicate Stripped(s: string) {
    s != "" ==> !Space(s[0]) && !Space(s[|s| - 1])
  }

  lemma {:induction false} LeftStripSplits(s: string) returns (cut: nat)
    ensures cut <= |s| && LeftStrip(s) == s[cut..]
    ensures forall i :: 0 <= i < cut ==> Space(s[i])
    ensures cut < |s| ==> !Space(s[cut])
  {
    cut := 0;
    if s != "" && Space(s[0]) {
      var rest := LeftStripSplits(s[1..]);
      cut := rest + 1;
    }
  }

  lemma {:induction false} RightStripSplits(s: string) returns (cut: nat)
    ensures cut <= |s| && RightStrip(s) == s[..cut]
    ensures forall i :: cut <= i < |s| ==> Space(s[i])
    ensures cut > 0 ==> !Space(s[cut - 1])
  {
    cut := |s|;
    if s != "" && Space(s[|s| - 1]) {
      cut := RightStripSplits(s[..|s| - 1]);
      assert s[..|s| - 1][..cut] == s[..cut];
    }
  }

  lemma StripIsStripped(s: string)
    ensures Stripped(Strip(s))
  {
    var a := LeftStripSplits(s);
    var b := RightStripSplits(LeftStrip(s));
  }

  lemma StrippedIsFixed(s: string)
    requires Stripped(s)
    ensures Strip(s) == s
  {
  }

  /** Stripping around a text that starts and ends with other characters only shortens what is around it. */
  lemma StripAround(pre: string, core: string, post: string) returns (a: nat, b: nat)
    requires core != "" && Stripped(core)
    ensures a <= |pre| && b <= |post| && Strip(pre + core + post) == pre[a..] + core + post[..b]
    ensures forall i :: 0 <= i < a ==> Space(pre[i])
  {
    var s := pre + core + post;
    var l := LeftStripSplits(s);
    assert s[|pre|] == core[0];
    a := l;
    var t := pre[a..] + core + post;
    assert LeftStrip(s) == t;
    var r := RightStripSplits(t);
    var last := |pre| - a + |core| - 1;
    assert t[last] == core[|core| - 1];
    b := r - last - 1;
    assert t[..r] == pre[a..] + core + post[..b];
    forall i | 0 <= i < a ensures Space(pre[i]) {
      assert s[i] == pre[i];
    }
  }

  // ----- lines -----

  /** `s.split("\n")` */
  function Lines(s: string): (ls: seq<string>)
    ensures ls != []
  {
    if s == "" then [""]
    else if s[0] == '\n' then [""] + Lines(s[1..])
    else
      var rest := Lines(s[1..]);
      [[s[0]] + rest[0]] + rest[1..]
  }

  /** `"\n".join(ls)` */
  function Join(ls: seq<string>): string {
    if ls == [] then "" else if |ls| == 1 then ls[0] else ls[0] + "\n" + Join(ls[1..])
  }

  const FENCE := "```"

  /** `line.strip().startswith("```")` */
  predicate Fence(line: string) {
    FENCE <= Strip(line)
  }

  function Unfenced(ls: seq<string>): seq<string> {
    if ls == [] then [] else if Fence(ls[0]) then Unfenced(ls[1..]) else [ls[0]] + Unfenced(ls[1..])
  }

  ghost predicate Plain(ls: seq<string>) {
    forall i :: 0 <= i < |ls| ==> !Fence(ls[i])
  }

  /** `"```" in s` */
  predicate HasFence(s: string) {
    FENCE <= s || (s != "" && HasFence(s[1..]))
  }

  function Clean(text: string): string {
    var t := Strip(text);
    if HasFence(t) then Strip(Join(Unfenced(Lines(t)))) else t
  }

  lemma {:induction false} JoinLines(s: string)
    ensures Join(Lines(s)) == s
  {
    if s != "" {
      JoinLines(s[1..]);
      var rest := Lines(s[1..]);
      if s[0] == '\n' {
        assert Lines(s)[1..] == rest;
      } else {
        assert Lines(s)[1..] == rest[1..];
      }
    }
  }

  lemma {:induction false} NoNewlines(s: string)
    ensures forall i :: 0 <= i < |Lines(s)| ==> '\n' !in Lines(s)[i]
  {
    if s != "" {
      NoNewlines(s[1..]);
    }
  }

  lemma {:induction false} OneLine(s: string)
    requires '\n' !in s
    ensures Lines(s) == [s]
  {
    if s != "" {
      OneLine(s[1..]);
      assert [s[0]] + s[1..] == s;
    }
  }

  /** The lines of two texts put together: the last line of one runs on into the first of the other. */
  function Glue(m: seq<string>, n: seq<string>): (r: seq<string>)
    requires m != [] && n != []
    ensures r != []
  {
    m[..|m| - 1] + [m[|m| - 1] + n[0]] + n[1..]
  }

  lemma GlueEmpty(n: seq<string>)
    requires n != []
    ensures Glue([""], n) == n
  {
    assert "" + n[0] == n[0];
    assert [n[0]] + n[1..] == n;
  }

  lemma GlueAfterLine(m: seq<string>, n: seq<string>)
    requires m != [] && n != []
    ensures Glue([""] + m, n) == [""] + Glue(m, n)
  {
    var k := [""] + m;
    assert k[..|k| - 1] == [""] + m[..|m| - 1];
  }

  lemma GlueAfterChar(c: char, m: seq<string>, n: seq<string>)
    requires m != [] && n != []
    ensures Glue([[c] + m[0]] + m[1..], n) == [[c] + Glue(m, n)[0]] + Glue(m, n)[1..]
  {
    var k := [[c] + m[0]] + m[1..];
    if |m| == 1 {
      assert k[0] + n[0] == [c] + (m[0] + n[0]);
      assert Glue(m, n) == [m[0] + n[0]] + n[1..];
    } else {
      assert k[..|k| - 1] == [[c] + m[0]] + m[1..|m| - 1];
      assert Glue(m, n)[0] == m[0];
      assert Glue(m, n)[1..] == m[1..|m| - 1] + [m[|m| - 1] + n[0]] + n[1..];
    }
  }

  lemma {:induction false} LinesAppend(a: string, b: string)
    ensures Lines(a + b) == Glue(Lines(a), Lines(b))
  {
    if a == "" {
      assert a + b == b;
      GlueEmpty(Lines(b));
    } else {
      LinesAppend(a[1..], b);
      assert (a + b)[1..] == a[1..] + b;
      if a[0] == '\n' {
        GlueAfterLine(Lines(a[1..]), Lines(b));
      } else {
        GlueAfterChar(a[0], Lines(a[1..]), Lines(b));
      }
    }
  }

  lemma GlueLine(l: string, rest: seq<string>)
    ensures Glue([l], [""] + rest) == [l] + rest
  {
    assert l + "" == l;
  }

  lemma LinesAfterBreak(l: string, rest: string)
    requires '\n' !in l
    ensures Lines(l + "\n" + rest) == [l] + Lines(rest)
  {
    var tail := "\n" + rest;
    assert tail[1..] == rest;
    OneLine(l);
    LinesAppend(l, tail);
    assert l + "\n" + rest == l + tail;
    GlueLine(l, Lines(rest));
  }

  lemma {:induction false} LinesOfJoin(ls: seq<string>)
    requires ls != [] && forall i :: 0 <= i < |ls| ==> '\n' !in ls[i]
    ensures Lines(Join(ls)) == ls
  {
    if |ls| > 1 {
      LinesOfJoin(ls[1..]);
      LinesAfterBreak(ls[0], Join(ls[1..]));
    } else {
      OneLine(ls[0]);
    }
    assert ls == [ls[0]] + ls[1..];
  }

  lemma {:induction false} UnfencedFacts(ls: seq<string>)
    ensures Plain(Unfenced(ls))
    ensures forall l :: l in Unfenced(ls) ==> l in ls
    ensures Plain(ls) ==> Unfenced(ls) == ls
  {
    if ls != [] {
      UnfencedFacts(ls[1..]);
      assert ls == [ls[0]] + ls[1..];
    }
  }

  lemma Associate<T>(a: seq<T>, b: seq<T>, c: seq<T>)
    ensures (a + b) + c == a + (b + c)
  {
  }

  lemma {:induction false} UnfencedAppend(a: seq<string>, b: seq<string>)
    ensures Unfenced(a + b) == Unfenced(a) + Unfenced(b)
  {
    if a == [] {
      assert a + b == b;
    } else {
      UnfencedAppend(a[1..], b);
      assert (a + b)[1..] == a[1..] + b;
      assert (a + b)[0] == a[0];
      Associate([a[0]], Unfenced(a[1..]), Unfenced(b));
    }
  }

  lemma {:induction false} JoinAppend(a: seq<string>, b: seq<string>)
    ensures Join(a + b) == if a == [] then Join(b) else if b == [] then Join(a) else Join(a) + "\n" + Join(b)
  {
    if a == [] {
      assert a + b == b;
    } else if b == [] {
      assert a + b == a;
    } else {
      JoinAppend(a[1..], b);
      assert (a + b)[1..] == a[1..] + b;
    }
  }

  // ----- matching braces -----

  function Weight(c: char): int {
    if c == '{' then 1 else if c == '}' then -1 else 0
  }

  /** Opening minus closing braces from one position to another. */
  function Depth(t: string, start: nat, i: nat): int
    requires start <= i <= |t|
  {
    if i == start then 0 else Depth(t, start, i - 1) + Weight(t[i - 1])
  }

  /** No brace between the two positions balances the one at the first. */
  ghost predicate Open(t: string, start: nat, i: nat) {
    start <= i <= |t| && forall k :: start < k <= i ==> Depth(t, start, k) > 0
  }

  /** Starts with a brace that the last character is the first to balance. */
  ghost predicate IsObject(o: string) {
    o != "" && o[0] == '{' && Depth(o, 0, |o|) == 0 && Open(o, 0, |o| - 1)
  }

  lemma {:induction false} DepthOfPart(t: string, a: nat, b: nat, k: nat)
    requires a <= b <= |t| && k <= b - a
    ensures Depth(t[a..b], 0, k) == Depth(t, a, a + k)
  {
    if k > 0 {
      DepthOfPart(t, a, b, k - 1);
    }
  }

  lemma ObjectOfPart(t: string, a: nat, b: nat)
    requires a < b <= |t|
    ensures IsObject(t[a..b]) <==> t[a] == '{' && Depth(t, a, b) == 0 && Open(t, a, b - 1)
  {
    var o := t[a..b];
    DepthOfPart(t, a, b, b - a);
    forall k | 0 < k < b - a ensures Depth(o, 0, k) == Depth(t, a, a + k) {
      DepthOfPart(t, a, b, k);
    }
    if Open(o, 0, |o| - 1) {
      forall k | a < k <= b - 1 ensures Depth(t, a, k) > 0 {
        assert Depth(o, 0, k - a) == Depth(t, a, a + (k - a));
      }
    }
  }

  /** No two different objects start at the same place. */
  lemma ObjectsAreMinimal(t: string, a: nat, b: nat, c: nat)
    requires a < b <= |t| && a < c <= |t| && IsObject(t[a..b]) && IsObject(t[a..c])
    ensures b == c
  {
    ObjectOfPart(t, a, b);
    ObjectOfPart(t, a, c);
  }

  ghost predicate ObjectAt(t: string, a: nat) {
    exists b :: a < b <= |t| && IsObject(t[a..b])
  }

  function IndexOf(s: string, c: char): (i: nat)
    ensures i <= |s| && c !in s[..i] && (i < |s| ==> s[i] == c)
    ensures i < |s| <==> c in s
  {
    if s == "" || s[0] == c then 0
    else
      assert s == [s[0]] + s[1..];
      IndexOf(s[1..], c) + 1
  }

  lemma NotBefore(s: string, c: char, i: nat)
    requires i <= |s| && c !in s[..i]
    ensures forall j :: 0 <= j < i ==> s[j] != c
  {
    assert forall j :: 0 <= j < i ==> s[..i][j] == s[j];
  }

  lemma IndexUnique(s: string, c: char, i: nat)
    requires i < |s| && s[i] == c && c !in s[..i]
    ensures IndexOf(s, c) == i
  {
    var k := IndexOf(s, c);
    assert c in s;
    NotBefore(s, c, i);
    NotBefore(s, c, k);
  }

  /** Between the braces of an object: at no point more are closed than opened, and in the end as many. */
  ghost predicate Content(x: string) {
    Depth(x, 0, |x|) == 0 && forall k :: 0 <= k <= |x| ==> Depth(x, 0, k) >= 0
  }

  lemma {:induction false} DepthAppend(a: string, b: string, k: nat)
    requires k <= |b|
    ensures Depth(a + b, 0, |a| + k) == Depth(a, 0, |a|) + Depth(b, 0, k)
  {
    if k > 0 {
      DepthAppend(a, b, k - 1);
    } else {
      DepthOfPart(a + b, 0, |a|, |a|);
      assert (a + b)[0..|a|] == a;
    }
  }

  lemma DepthWithin(a: string, b: string, k: nat)
    requires k <= |a|
    ensures Depth(a + b, 0, k) == Depth(a, 0, k)
  {
    DepthOfPart(a + b, 0, |a|, k);
    assert (a + b)[0..|a|] == a;
  }

  /** A content in braces is an object, and every object is one. */
  lemma EnclosedIff(x: string)
    ensures IsObject("{" + x + "}") <==> Content(x)
  {
    var inner := "{" + x;
    var o := inner + "}";
    forall k | 0 <= k <= |x| ensures Depth(o, 0, k + 1) == Depth(x, 0, k) + 1 {
      DepthWithin(inner, "}", k + 1);
      DepthAppend("{", x, k);
    }
    if Content(x) {
      forall k | 0 < k <= |o| - 1 ensures Depth(o, 0, k) > 0 {
        assert Depth(o, 0, (k - 1) + 1) == Depth(x, 0, k - 1) + 1;
      }
    }
    if IsObject(o) {
      forall k | 0 <= k <= |x| ensures Depth(x, 0, k) >= 0 {
        assert Depth(o, 0, k + 1) > 0;
      }
    }
  }

  lemma ContentAppend(x: string, y: string)
    requires Content(x) && Content(y)
    ensures Content(x + y)
  {
    forall k | 0 <= k <= |x + y| ensures Depth(x + y, 0, k) >= 0 && (k == |x + y| ==> Depth(x + y, 0, k) == 0) {
      if k <= |x| {
        DepthWithin(x, y, k);
        if k == |x + y| {
          assert x + y == x;
        }
      } else {
        DepthAppend(x, y, k - |x|);
      }
    }
  }

  lemma {:induction false} BraceFreeDepth(x: string, k: nat)
    requires k <= |x| && '{' !in x && '}' !in x
    ensures Depth(x, 0, k) == 0
  {
    if k > 0 {
      BraceFreeDepth(x, k - 1);
    }
  }

  /** Contents are built from text without braces, objects, and one after the other: objects nest to any depth. */
  lemma ContentIsClosed(x: string, o: string, rest: string)
    requires '{' !in x && '}' !in x && (o == "" || IsObject(o)) && Content(rest)
    ensures Content(x + o + rest) && IsObject("{" + (x + o + rest) + "}")
  {
    forall k | 0 <= k <= |x| ensures Depth(x, 0, k) == 0 {
      BraceFreeDepth(x, k);
    }
    if o != "" {
      forall k | 0 <= k <= |o| ensures Depth(o, 0, k) >= 0 {
      }
    }
    ContentAppend(x, o);
    ContentAppend(x + o, rest);
    EnclosedIff(x + o + rest);
  }

  /** The part of the cleaned text that is returned: from the first brace to the one that balances it, or all of it. */
  ghost function ObjectIn(t: string): string {
    var a := IndexOf(t, '{');
    if b :| a < b <= |t| && IsObject(t[a..b]) then t[a..b] else t
  }

  lemma ObjectInIs(t: string, start: nat, end: nat)
    requires start < end <= |t| && '{' !in t[..start] && IsObject(t[start..end])
    ensures ObjectIn(t) == t[start..end]
  {
    assert t[start..end][0] == t[start];
    IndexUnique(t, '{', start);
    var b :| start < b <= |t| && IsObject(t[start..b]) && ObjectIn(t) == t[start..b];
    ObjectsAreMinimal(t, start, b, end);
  }

  /**
   What is returned is the object that starts at the first brace, or the whole text if and only if none starts there.
   */
  lemma ObjectInCases(t: string) returns (a: nat, b: nat)
    ensures a == IndexOf(t, '{') && a <= b <= |t| && '{' !in t[..a]
    ensures a < b <==> ObjectAt(t, a)
    ensures if a < b then IsObject(t[a..b]) && ObjectIn(t) == t[a..b] else ObjectIn(t) == t
  {
    a := IndexOf(t, '{');
    b := a;
    if ObjectAt(t, a) {
      var end :| a < end <= |t| && IsObject(t[a..end]) && ObjectIn(t) == t[a..end];
      b := end;
    }
  }

  ghost function Extracted(text: string): string {
    ObjectIn(Clean(text))
  }

  lemma ScannedIsObject(t: string, start: nat, i: nat)
    requires start < i < |t| && t[start] == '{' && Open(t, start, i) && Depth(t, start, i + 1) == 0
    ensures IsObject(t[start..i + 1])
  {
    ObjectOfPart(t, start, i + 1);
  }

  lemma ScannedIsReturned(t: string, start: nat, i: nat)
    requires start < i < |t| && t[start] == '{' && '{' !in t[..start]
    requires Open(t, start, i) && Depth(t, start, i + 1) == 0
    ensures ObjectIn(t) == t[start..i + 1]
  {
    ScannedIsObject(t, start, i);
    ObjectInIs(t, start, i + 1);
  }

  lemma OpenHasNoObject(t: string, start: nat)
    requires start == IndexOf(t, '{') && Open(t, start, |t|)
    ensures ObjectIn(t) == t
  {
    forall b | start < b <= |t| ensures !IsObject(t[start..b]) {
      ObjectOfPart(t, start, b);
    }
  }

  /** `_strip_markdown_fences` */
  method Extract(text: string) returns (r: string)
    ensures r == Extracted(text)
  {
    var t := Clean(text);
    var start := IndexOf(t, '{');
    if '{' in t {
      var depth := 0;
      for i := start to |t|
        invariant depth == Depth(t, start, i) && Open(t, start, i)
      {
        if t[i] == '{' {
          depth := depth + 1;
        } else if t[i] == '}' {
          depth := depth - 1;
          if depth == 0 {
            ScannedIsReturned(t, start, i);
            return t[start..i + 1];
          }
        }
      }
    }
    OpenHasNoObject(t, start);
    return t;
  }

  // ----- fence lines -----

  /** A fence line is white space, three back-ticks, and anything. */
  lemma FenceAt(l: string, c: nat)
    requires c + 3 <= |l| && l[c..c + 3] == FENCE && forall i :: 0 <= i < c ==> Space(l[i])
    ensures Fence(l)
  {
    var cut := LeftStripSplits(l);
    assert l[c] == l[c..c + 3][0] && l[c + 2] == l[c..c + 3][2];
    assert cut == c;
    var n := RightStripSplits(l[c..]);
    assert l[c..][2] == l[c + 2];
    assert l[c..][..n][..3] == l[c..c + 3];
  }

  lemma FenceWhere(l: string) returns (c: nat)
    requires Fence(l)
    ensures c + 3 <= |l| && l[c..c + 3] == FENCE && forall i :: 0 <= i < c ==> Space(l[i])
  {
    c := LeftStripSplits(l);
    var n := RightStripSplits(l[c..]);
    assert Strip(l)[..3] == FENCE;
    assert l[c..][..n][..3] == l[c..c + 3];
  }

  lemma PrefixStaysPlain(p: string, l: string)
    requires p <= l && !Fence(l)
    ensures !Fence(p)
  {
    if Fence(p) {
      var c := FenceWhere(p);
      assert l[c..c + 3] == p[c..c + 3];
      FenceAt(l, c);
    }
  }

  /** A brace keeps what follows it from making a fence. */
  lemma BraceStaysPlain(x: string, z: string, i: nat)
    requires !Fence(x) && i <= |x| && i < |x + z| && (x + z)[i] in "{}"
    ensures !Fence(x + z)
  {
    if Fence(x + z) {
      var c := FenceWhere(x + z);
      assert forall j :: c <= j < c + 3 ==> (x + z)[j] == (x + z)[c..c + 3][j - c];
      assert c + 3 <= i;
      assert x[c..c + 3] == (x + z)[c..c + 3];
      assert forall j :: 0 <= j < c ==> x[j] == (x + z)[j];
      FenceAt(x, c);
    }
  }

  /** No line is a fence. */
  ghost predicate Unmarked(s: string) {
    Plain(Lines(s))
  }

  lemma {:induction false} PrefixLines(s: string, n: nat)
    requires n <= |s|
    ensures Lines(s[..n])[0] <= Lines(s)[0]
    ensures Plain(Lines(s)[1..]) ==> Plain(Lines(s[..n])[1..])
  {
    if n > 0 {
      PrefixLines(s[1..], n - 1);
      assert s[..n][1..] == s[1..][..n - 1];
      if s[0] == '\n' && Plain(Lines(s)[1..]) {
        assert Lines(s)[1..] == Lines(s[1..]);
        PlainParts(Lines(s[1..]));
        PrefixStaysPlain(Lines(s[1..][..n - 1])[0], Lines(s[1..])[0]);
        PlainParts(Lines(s[1..][..n - 1]));
        assert Lines(s[..n])[1..] == Lines(s[1..][..n - 1]);
      }
    }
  }

  lemma PlainParts(ls: seq<string>)
    requires ls != []
    ensures Plain(ls) <==> !Fence(ls[0]) && Plain(ls[1..])
  {
    if !Fence(ls[0]) && Plain(ls[1..]) {
      forall i | 0 <= i < |ls| ensures !Fence(ls[i]) {
        if i > 0 {
          assert ls[i] == ls[1..][i - 1];
        }
      }
    }
  }

  lemma PrefixUnmarked(s: string, n: nat)
    requires n <= |s| && Unmarked(s)
    ensures Unmarked(s[..n])
  {
    PrefixLines(s, n);
    PlainParts(Lines(s));
    PrefixStaysPlain(Lines(s[..n])[0], Lines(s)[0]);
    PlainParts(Lines(s[..n]));
  }

  lemma {:induction false} SuffixLines(s: string, k: nat)
    requires k <= |s| && Plain(Lines(s)[1..])
    ensures Plain(Lines(s[k..])[1..])
  {
    if k > 0 {
      var rest := Lines(s[1..]);
      if s[0] == '\n' {
        assert Lines(s)[1..] == rest;
        PlainParts(rest);
      } else {
        assert Lines(s)[1..] == rest[1..];
      }
      SuffixLines(s[1..], k - 1);
      assert s[1..][k - 1..] == s[k..];
    } else {
      assert s[k..] == s;
    }
  }

  lemma FirstLineStarts(s: string)
    requires s != "" && s[0] != '\n'
    ensures Lines(s)[0] != "" && Lines(s)[0][0] == s[0]
  {
  }

  lemma LastLineEnds(s: string)
    requires s != "" && s[|s| - 1] != '\n'
    ensures var l := Lines(s)[|Lines(s)| - 1]; l != "" && l[|l| - 1] == s[|s| - 1]
  {
    var c := [s[|s| - 1]];
    LinesAppend(s[..|s| - 1], c);
    OneLine(c);
    assert s == s[..|s| - 1] + c;
  }

  lemma BraceIsPlain(l: string)
    requires l != "" && l[0] == '{'
    ensures !Fence(l)
  {
    assert "" + l == l;
    BraceStaysPlain("", l, 0);
  }

  /** A part that starts with a brace has no fence lines if the whole has none. */
  lemma PartUnmarked(s: string, a: nat, b: nat)
    requires a < b <= |s| && s[a] == '{' && Unmarked(s)
    ensures Unmarked(s[a..b])
  {
    PlainParts(Lines(s));
    SuffixLines(s, a);
    FirstLineStarts(s[a..]);
    BraceIsPlain(Lines(s[a..])[0]);
    PlainParts(Lines(s[a..]));
    PrefixUnmarked(s[a..], b - a);
    assert s[a..][..b - a] == s[a..b];
  }

  lemma {:induction false} LeftStripUnmarked(s: string)
    requires Unmarked(s)
    ensures Unmarked(LeftStrip(s))
  {
    if s != "" && Space(s[0]) {
      var rest := Lines(s[1..]);
      PlainParts(Lines(s));
      PlainParts(rest);
      if s[0] == '\n' {
        assert Lines(s)[1..] == rest;
      } else {
        assert Lines(s)[1..] == rest[1..];
        assert ([s[0]] + rest[0])[1..] == rest[0];
      }
      LeftStripUnmarked(s[1..]);
    }
  }

  lemma StripUnmarked(s: string)
    requires Unmarked(s)
    ensures Unmarked(Strip(s))
  {
    LeftStripUnmarked(s);
    var n := RightStripSplits(LeftStrip(s));
    PrefixUnmarked(LeftStrip(s), n);
  }

  // ----- applying it twice -----

  lemma {:induction false} FenceInPrefix(s: string, n: nat)
    requires n <= |s| && HasFence(s[..n])
    ensures HasFence(s)
    decreases n
  {
    if !(FENCE <= s[..n]) {
      assert s[..n][1..] == s[1..][..n - 1];
      FenceInPrefix(s[1..], n - 1);
    }
  }

  lemma {:induction false} FenceInSuffix(s: string, k: nat)
    requires k <= |s| && HasFence(s[k..])
    ensures HasFence(s)
    decreases k
  {
    if k > 0 {
      assert s[1..][k - 1..] == s[k..];
      FenceInSuffix(s[1..], k - 1);
    } else {
      assert s[k..] == s;
    }
  }

  /** What cleaning leaves: nothing to strip and no fence line. */
  ghost predicate Cleaned(t: string) {
    Stripped(t) && (HasFence(t) ==> Unmarked(t))
  }

  lemma CleanIsCleaned(text: string)
    ensures Cleaned(Clean(text))
  {
    var t := Strip(text);
    StripIsStripped(text);
    if HasFence(t) {
      var kept := Unfenced(Lines(t));
      UnfencedFacts(Lines(t));
      NoNewlines(t);
      StripIsStripped(Join(kept));
      if kept != [] {
        forall i | 0 <= i < |kept| ensures '\n' !in kept[i] {
          assert kept[i] in Lines(t);
        }
        LinesOfJoin(kept);
        StripUnmarked(Join(kept));
      }
    }
  }

  lemma CleanedIsFixed(t: string)
    requires Cleaned(t)
    ensures Clean(t) == t
  {
    StrippedIsFixed(t);
    UnfencedFacts(Lines(t));
    JoinLines(t);
  }

  lemma ObjectEnds(o: string)
    requires IsObject(o)
    ensures |o| >= 2 && o[|o| - 1] == '}' && Stripped(o)
  {
    assert Depth(o, 0, 1) == Weight(o[0]);
    assert |o| >= 2;
    assert Depth(o, 0, |o| - 1) > 0;
  }

  lemma ObjectCleaned(t: string, a: nat, b: nat)
    requires a < b <= |t| && Cleaned(t) && IsObject(t[a..b])
    ensures Cleaned(t[a..b])
  {
    ObjectEnds(t[a..b]);
    assert t[a] == t[a..b][0];
    if HasFence(t[a..b]) {
      assert t[a..b] == t[a..][..b - a];
      FenceInPrefix(t[a..], b - a);
      FenceInSuffix(t, a);
      PartUnmarked(t, a, b);
    }
  }

  lemma ObjectInItself(o: string)
    requires IsObject(o)
    ensures ObjectIn(o) == o
  {
    assert o[0..|o|] == o;
    ObjectInIs(o, 0, |o|);
  }

  /** What is returned is all the text that matters: extracting again changes nothing. */
  lemma ExtractTwice(text: string)
    ensures Extracted(Extracted(text)) == Extracted(text)
  {
    var t := Clean(text);
    CleanIsCleaned(text);
    var a, b := ObjectInCases(t);
    if a < b {
      ObjectCleaned(t, a, b);
      CleanedIsFixed(t[a..b]);
      ObjectInItself(t[a..b]);
    } else {
      CleanedIsFixed(t);
    }
  }

  // ----- an object among other text -----

  lemma LastAfter(x: string, rest: seq<string>)
    requires rest != []
    ensures Last([""] + rest) == Last(rest)
    ensures |rest| > 1 ==> Last([x] + rest[1..]) == Last(rest)
  {
  }

  lemma LastLineAfterSpace(s: string)
    requires s != "" && Space(s[0])
    ensures Fence(Last(Lines(s[1..]))) <==> Fence(Last(Lines(s)))
  {
    var rest := Lines(s[1..]);
    var x := [s[0]] + rest[0];
    LastAfter(x, rest);
    if s[0] != '\n' && |rest| == 1 {
      assert x[1..] == rest[0];
      assert Lines(s) == [x];
    }
  }

  lemma {:induction false} LastLineAfterSpaces(s: string, a: nat)
    requires a <= |s| && forall i :: 0 <= i < a ==> Space(s[i])
    ensures Fence(Last(Lines(s[a..]))) <==> Fence(Last(Lines(s)))
  {
    if a > 0 {
      LastLineAfterSpaces(s[1..], a - 1);
      assert s[1..][a - 1..] == s[a..];
      LastLineAfterSpace(s);
    } else {
      assert s[a..] == s;
    }
  }

  function Last(ls: seq<string>): string
    requires ls != []
  {
    ls[|ls| - 1]
  }

  /** The lines that the middle of three texts touches. */
  function Middle(m: seq<string>, o: seq<string>, n: seq<string>): seq<string>
    requires m != [] && o != [] && n != []
  {
    Glue(Glue([Last(m)], o), [n[0]])
  }

  lemma GlueMiddle(m: seq<string>, o: seq<string>, n: seq<string>)
    requires m != [] && o != [] && n != []
    ensures Glue(Glue(m, o), n) == m[..|m| - 1] + Middle(m, o, n) + n[1..]
  {
    var g := Glue([Last(m)], o);
    assert Glue(m, o) == m[..|m| - 1] + g;
    assert Glue(m, o)[..|m| - 1 + |g| - 1] == m[..|m| - 1] + g[..|g| - 1];
  }

  lemma MiddleShape(m: seq<string>, o: seq<string>, n: seq<string>)
    requires m != [] && |o| > 1 && n != []
    ensures var k := Middle(m, o, n);
            && |k| == |o| && k[0] == Last(m) + o[0] && k[|o| - 1] == Last(o) + n[0]
            && forall i :: 0 < i < |o| - 1 ==> k[i] == o[i]
  {
    var g := Glue([Last(m)], o);
    assert g == [Last(m) + o[0]] + o[1..];
    assert Glue(g, [n[0]]) == g[..|g| - 1] + [Last(o) + n[0]];
  }

  /** An object without fence lines that starts on a line that is no fence touches no fence line. */
  lemma MiddlePlain(m: seq<string>, o: seq<string>, n: seq<string>)
    requires m != [] && o != [] && n != [] && !Fence(Last(m)) && Plain(o)
    requires o[0] != "" && o[0][0] == '{' && Last(o) != "" && Last(o)[|Last(o)| - 1] == '}'
    ensures Plain(Middle(m, o, n))
  {
    var x := Last(m) + o[0];
    BraceStaysPlain(Last(m), o[0], |Last(m)|);
    if |o| == 1 {
      BraceStaysPlain(x, n[0], |x| - 1);
      assert Middle(m, o, n) == [x + n[0]];
    } else {
      BraceStaysPlain(Last(o), n[0], |Last(o)| - 1);
      MiddleShape(m, o, n);
    }
  }

  ghost predicate Unused(ls: seq<string>, c: char) {
    forall i :: 0 <= i < |ls| ==> c !in ls[i]
  }

  lemma {:induction false} UnusedInLines(s: string, c: char)
    requires c !in s
    ensures Unused(Lines(s), c)
  {
    if s != "" {
      UnusedInLines(s[1..], c);
    }
  }

  lemma UnusedInLast(ls: seq<string>, c: char)
    requires ls != [] && Unused(ls, c)
    ensures Unused(ls[..|ls| - 1], c) && c !in Last(ls)
  {
  }

  lemma {:induction false} UnusedInJoin(ls: seq<string>, c: char)
    requires c != '\n' && Unused(ls, c)
    ensures c !in Join(ls)
  {
    if |ls| > 1 {
      UnusedInJoin(ls[1..], c);
    }
  }

  /** Dropping the fence lines around plain lines keeps those, in one piece. */
  lemma UnfencedAround(a: seq<string>, m: seq<string>, b: seq<string>) returns (x: string, y: string)
    requires m != [] && Plain(m) && Unused(a, '{')
    ensures Join(Unfenced(a + m + b)) == x + Join(m) + y && '{' !in x
  {
    var u, v := Unfenced(a), Unfenced(b);
    UnfencedFacts(a);
    UnfencedFacts(m);
    UnfencedAppend(a + m, b);
    UnfencedAppend(a, m);
    forall i | 0 <= i < |u| ensures '{' !in u[i] {
      assert u[i] in a;
    }
    UnusedInJoin(u, '{');
    x, y := JoinAround(u, m, v);
  }

  lemma JoinBefore(u: seq<string>, m: seq<string>) returns (x: string)
    requires m != [] && '{' !in Join(u)
    ensures Join(u + m) == x + Join(m) && '{' !in x
  {
    JoinAppend(u, m);
    x := if u == [] then "" else Join(u) + "\n";
    assert "" + Join(m) == Join(m);
  }

  lemma JoinAfter(m: seq<string>, v: seq<string>) returns (y: string)
    requires m != []
    ensures Join(m + v) == Join(m) + y
  {
    JoinAppend(m, v);
    y := if v == [] then "" else "\n" + Join(v);
    assert Join(m) + ("\n" + Join(v)) == Join(m) + "\n" + Join(v) && Join(m) + "" == Join(m);
  }

  lemma JoinAround(u: seq<string>, m: seq<string>, v: seq<string>) returns (x: string, y: string)
    requires m != [] && '{' !in Join(u)
    ensures Join(u + m + v) == x + Join(m) + y && '{' !in x
  {
    x := JoinBefore(u, m);
    y := JoinAfter(u + m, v);
  }

  lemma LinesAround(p: string, o: string, q: string)
    ensures var m, n := Lines(p), Lines(q);
            Lines(p + o + q) == m[..|m| - 1] + Middle(m, Lines(o), n) + n[1..]
  {
    LinesAppend(p, o);
    LinesAppend(p + o, q);
    GlueMiddle(Lines(p), Lines(o), Lines(q));
  }

  lemma ObjectLinesPlain(p: string, o: string, q: string)
    requires IsObject(o) && Unmarked(o) && !Fence(Last(Lines(p)))
    ensures Plain(Middle(Lines(p), Lines(o), Lines(q)))
  {
    ObjectEnds(o);
    FirstLineStarts(o);
    LastLineEnds(o);
    MiddlePlain(Lines(p), Lines(o), Lines(q));
  }

  lemma Regroup(u: string, a: string, o: string, b: string, v: string)
    ensures u + (a + o + b) + v == (u + a) + o + (b + v)
  {
  }

  lemma UnfencedKeepsObject(p: string, o: string, q: string) returns (x: string, y: string)
    requires IsObject(o) && '{' !in p && Unmarked(o) && !Fence(Last(Lines(p)))
    ensures Join(Unfenced(Lines(p + o + q))) == x + o + y && '{' !in x
  {
    var m, n := Lines(p), Lines(q);
    var mid := Middle(m, Lines(o), n);
    LinesAround(p, o, q);
    ObjectLinesPlain(p, o, q);
    UnusedInLines(p, '{');
    UnusedInLast(m, '{');
    var u, v := UnfencedAround(m[..|m| - 1], mid, n[1..]);
    MiddleText(p, o, q);
    x, y := u + Last(m), n[0] + v;
    Regroup(u, Last(m), o, n[0], v);
    UnusedInBoth(u, Last(m), '{');
  }

  lemma UnusedInBoth(a: string, b: string, c: char)
    requires c !in a && c !in b
    ensures c !in a + b
  {
  }

  lemma MiddleText(p: string, o: string, q: string)
    ensures Join(Middle(Lines(p), Lines(o), Lines(q))) == Last(Lines(p)) + o + Lines(q)[0]
  {
    var a, b := Last(Lines(p)), Lines(q)[0];
    NoNewlines(p);
    NoNewlines(q);
    OneLine(a);
    OneLine(b);
    LinesAppend(a, o);
    LinesAppend(a + o, b);
    JoinLines(a + o + b);
  }

  lemma ObjectAfterProse(x: string, o: string, y: string)
    requires IsObject(o) && '{' !in x
    ensures ObjectIn(x + o + y) == o
  {
    var t := x + o + y;
    assert t[|x|..|x| + |o|] == o && t[..|x|] == x;
    ObjectInIs(t, |x|, |x| + |o|);
  }

  /**
   An object after text without an opening brace is returned exactly, whatever follows it. Where the reply has fences,
   none may be on a line of the object.
   */
  lemma WrappedObjectIsReturned(pre: string, o: string, post: string)
    requires IsObject(o) && '{' !in pre
    requires HasFence(Strip(pre + o + post)) ==> Unmarked(o) && !Fence(Last(Lines(pre)))
    ensures Extracted(pre + o + post) == o
  {
    ObjectEnds(o);
    var a, b := StripAround(pre, o, post);
    var p, q := pre[a..], post[..b];
    if HasFence(p + o + q) {
      LastLineAfterSpaces(pre, a);
      var x, y := UnfencedKeepsObject(p, o, q);
      var c, d := StripAround(x, o, y);
      ObjectAfterProse(x[c..], o, y[..d]);
    } else {
      ObjectAfterProse(p, o, q);
    }
  }

  lemma {:induction false} FirstLineIsPrefix(s: string)
    ensures Lines(s)[0] <= s
  {
    if s != "" && s[0] != '\n' {
      FirstLineIsPrefix(s[1..]);
      assert s == [s[0]] + s[1..];
    }
  }

  lemma FenceLineHasFence(l: string)
    requires Fence(l)
    ensures HasFence(l)
  {
    var c := FenceWhere(l);
    assert l[c..][..3] == FENCE;
    FenceInSuffix(l, c);
  }

  lemma {:induction false} FenceInLine(s: string, i: nat)
    requires i < |Lines(s)| && HasFence(Lines(s)[i])
    ensures HasFence(s)
    decreases |s|
  {
    if i == 0 {
      FirstLineIsPrefix(s);
      assert s[..|Lines(s)[0]|] == Lines(s)[0];
      FenceInPrefix(s, |Lines(s)[0]|);
    } else if s[0] == '\n' {
      FenceInLine(s[1..], i - 1);
    } else {
      assert Lines(s)[i] == Lines(s[1..])[i];
      FenceInLine(s[1..], i);
    }
  }

  lemma MarkedHasFence(s: string)
    requires !Unmarked(s)
    ensures HasFence(s)
  {
    var i :| 0 <= i < |Lines(s)| && Fence(Lines(s)[i]);
    FenceLineHasFence(Lines(s)[i]);
    FenceInLine(s, i);
  }

  /** Nothing that is returned has a fence line. */
  lemma ReturnedIsUnmarked(text: string)
    ensures Unmarked(Extracted(text))
  {
    var t := Clean(text);
    CleanIsCleaned(text);
    var a, b := ObjectInCases(t);
    if a < b {
      ObjectCleaned(t, a, b);
    }
    if !Unmarked(Extracted(text)) {
      MarkedHasFence(Extracted(text));
    }
  }

  /** On a line that is no fence an object comes back exactly if and only if it has no fence line of its own. */
  lemma ReturnedIffUnmarked(pre: string, o: string, post: string)
    requires IsObject(o) && '{' !in pre && !Fence(Last(Lines(pre)))
    ensures Extracted(pre + o + post) == o <==> Unmarked(o)
  {
    ReturnedIsUnmarked(pre + o + post);
    if Unmarked(o) {
      WrappedObjectIsReturned(pre, o, post);
    }
  }

  /** The usual reply: a fenced block between prose lines. */
  lemma FencedBlockIsReturned(prose: string, tag: string, o: string, after: string)
    requires IsObject(o) && Unmarked(o) && '{' !in prose && '{' !in tag && '\n' !in tag
    ensures Extracted(prose + "\n```" + tag + "\n" + o + "\n```\n" + after) == o
  {
    var head := prose + "\n```" + tag;
    var pre := head + "\n";
    LinesAppend(head, "\n");
    assert Lines("\n") == ["", ""];
    assert Last(Lines(pre)) == "";
    WrappedObjectIsReturned(pre, o, "\n```\n" + after);
    assert pre + o + ("\n```\n" + after) == prose + "\n```" + tag + "\n" + o + "\n```\n" + after;
  }

  lemma GlueBreak(m: seq<string>, rest: seq<string>)
    requires m != []
    ensures Glue(m, [""] + rest) == m + rest
  {
    assert m[|m| - 1] + "" == m[|m| - 1];
  }

  lemma LinesAcrossBreak(p: string, rest: string)
    ensures Lines(p + "\n" + rest) == Lines(p) + Lines(rest)
  {
    var tail := "\n" + rest;
    assert tail[1..] == rest;
    LinesAppend(p, tail);
    assert p + "\n" + rest == p + tail;
    GlueBreak(Lines(p), Lines(rest));
  }

  lemma FencedText(p: string, f: string, q: string)
    requires p != "" && q != "" && Stripped(p) && Stripped(q) && '\n' !in f && Fence(f)
    ensures var t := p + "\n" + (f + "\n" + q); Stripped(t) && HasFence(t) && Lines(t) == Lines(p) + ([f] + Lines(q))
  {
    var r := f + "\n" + q;
    LinesAfterBreak(f, q);
    LinesAcrossBreak(p, r);
    FenceInside(p, f, q);
    var t := p + "\n" + r;
    assert t[0] == p[0] && t[|t| - 1] == q[|q| - 1];
  }

  lemma FenceInside(p: string, f: string, q: string)
    requires Fence(f)
    ensures HasFence(p + "\n" + (f + "\n" + q))
  {
    var r := f + "\n" + q;
    var t := p + "\n" + r;
    FenceLineHasFence(f);
    assert r[..|f|] == f;
    FenceInPrefix(r, |f|);
    assert t[|p| + 1..] == r;
    FenceInSuffix(t, |p| + 1);
  }

  /** Cleaning drops a fence line and nothing else: the lines before and after it come back as they were. */
  lemma FenceLineIsDropped(p: string, f: string, q: string)
    requires p != "" && q != "" && Stripped(p) && Stripped(q) && '\n' !in f && Fence(f)
    requires Unmarked(p) && Unmarked(q)
    ensures Clean(p + "\n" + (f + "\n" + q)) == p + "\n" + q
  {
    var t := p + "\n" + (f + "\n" + q);
    FencedText(p, f, q);
    StrippedIsFixed(t);
    UnfencedAppend(Lines(p), [f] + Lines(q));
    UnfencedFacts(Lines(p));
    UnfencedFacts(Lines(q));
    assert ([f] + Lines(q))[1..] == Lines(q);
    JoinAppend(Lines(p), Lines(q));
    JoinLines(p);
    JoinLines(q);
    var kept := p + "\n" + q;
    assert kept[0] == p[0] && kept[|kept| - 1] == q[|q| - 1];
    StrippedIsFixed(kept);
  }

  /** A reply without fences and braces comes back stripped and otherwise as it is. */
  lemma PlainReplyIsStripped(text: string)
    requires !HasFence(Strip(text)) && '{' !in Strip(text)
    ensures Extracted(text) == Strip(text)
  {
    var a, b := ObjectInCases(Clean(text));
    assert a == |Clean(text)|;
  }
}
