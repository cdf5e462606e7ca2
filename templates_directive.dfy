/**
 * The first half of `AddTemplate` in templates/template.go: finding a
 * template's first line with `bytes.Reader.ReadRune`, and matching that line
 * against the extends directive
 *
 *     \{\{ *?extends +?"(.+?)" *?\}\}
 *
 * with Go's `regexp.FindSubmatch` (leftmost match; among the matches that
 * start there, the one a backtracking matcher meets first, so the lazy
 * capture is as short as it can be).
 */
module ExtendsDirective {
  import opened Wrappers
  import opened GoStrings

  const Newline: byte := 0x0A
  const Space: byte := 0x20
  const Quote: byte := 0x22
  const OpenDelims: Bytes := [0x7B, 0x7B]     // "{{"
  const CloseDelims: Bytes := [0x7D, 0x7D]    // "}}"
  const Extends: Bytes := [0x65, 0x78, 0x74, 0x65, 0x6E, 0x64, 0x73]   // "extends"

  /** The length `AddTemplate` demands of a first line before it tries the directive. */
  const MinDirectiveLine: nat := 10

  // ------------------------------------------------------------------
  // bytes.Reader.ReadRune
  // ------------------------------------------------------------------

  /** A rune read by `ReadRune`: its code point, its width in bytes, and whether the reader was at EOF. */
  datatype RuneRead = RuneRead(ch: int, size: nat, eof: bool)

  const RuneError: int := 0xFFFD

  predicate InRange(b: int, lo: int, hi: int) { lo <= b <= hi }

  /**
   * `utf8.DecodeRune(s[i..])` for a first byte of 0x80 or above: a well-formed
   * two-, three- or four-byte sequence gives its code point; anything else
   * gives `RuneError` with width 1.
   */
  function DecodeRune(s: Bytes, i: nat): (r: RuneRead)
    requires i < |s| && s[i] >= 0x80
    ensures 1 <= r.size <= 4 && i + r.size <= |s| && !r.eof
    ensures forall k :: i <= k < i + r.size ==> s[k] >= 0x80
    ensures r.size > 1 ==> r.ch >= 0x80
    ensures r.size == 1 ==> r.ch == RuneError
  {
    var b0: int := s[i];
    var b1: int := if i + 1 < |s| then s[i + 1] else 0;
    var b2: int := if i + 2 < |s| then s[i + 2] else 0;
    var b3: int := if i + 3 < |s| then s[i + 3] else 0;
    var n := |s| - i;
    if InRange(b0, 0xC2, 0xDF) then
      if n >= 2 && InRange(s[i + 1], 0x80, 0xBF)
      then RuneRead((b0 - 0xC0) * 64 + (b1 - 0x80), 2, false)
      else RuneRead(RuneError, 1, false)
    else if InRange(b0, 0xE0, 0xEF) then
      var lo := if b0 == 0xE0 then 0xA0 else 0x80;
      var hi := if b0 == 0xED then 0x9F else 0xBF;
      if n >= 3 && InRange(s[i + 1], lo, hi) && InRange(s[i + 2], 0x80, 0xBF)
      then RuneRead((b0 - 0xE0) * 4096 + (b1 - 0x80) * 64 + (b2 - 0x80), 3, false)
      else RuneRead(RuneError, 1, false)
    else if InRange(b0, 0xF0, 0xF4) then
      var lo := if b0 == 0xF0 then 0x90 else 0x80;
      var hi := if b0 == 0xF4 then 0x8F else 0xBF;
      if n >= 4 && InRange(s[i + 1], lo, hi) && InRange(s[i + 2], 0x80, 0xBF) && InRange(s[i + 3], 0x80, 0xBF)
      then RuneRead((b0 - 0xF0) * 262144 + (b1 - 0x80) * 4096 + (b2 - 0x80) * 64 + (b3 - 0x80), 4, false)
      else RuneRead(RuneError, 1, false)
    else
      RuneRead(RuneError, 1, false)
  }

  /**
   * `ReadRune` on a reader positioned at `pos`: `(0, 0, EOF)` at the end, an
   * ASCII byte as itself with width 1, and otherwise `DecodeRune`. The rune is
   * '\n' exactly when it is the single byte 0x0A.
   */
  function ReadRune(s: Bytes, pos: nat): (r: RuneRead)
    requires pos <= |s|
    ensures r.eof <==> pos == |s|
    ensures r.eof ==> r.size == 0
    ensures !r.eof ==> r.size >= 1 && pos + r.size <= |s|
    ensures r.ch == Newline as int <==> !r.eof && r.size == 1 && s[pos] == Newline
    ensures !r.eof && r.ch != Newline as int ==> forall k :: pos <= k < pos + r.size ==> s[k] != Newline
  {
    if pos == |s| then RuneRead(0, 0, true)
    else if s[pos] < 0x80 then RuneRead(s[pos], 1, false)
    else DecodeRune(s, pos)
  }

  // ------------------------------------------------------------------
  // The first line
  // ------------------------------------------------------------------

  /** The bytes up to and including the first '\n', or all of `s` when it has none. */
  function FirstLine(s: Bytes): (line: Bytes)
    ensures |line| <= |s|
  {
    if s == [] then []
    else if s[0] == Newline then [s[0]]
    else [s[0]] + FirstLine(s[1..])
  }

  lemma {:induction false} FirstLineAtNewline(s: Bytes, k: nat)
    requires k < |s| && s[k] == Newline
    requires Newline !in s[..k]
    ensures FirstLine(s) == s[..k + 1]
  {
    if k > 0 {
      assert s[0] == s[..k][0];
      assert s[1..][..k - 1] == s[1..k];
      assert s[1..k] == s[..k][1..];
      FirstLineAtNewline(s[1..], k - 1);
      assert s[..k + 1] == [s[0]] + s[1..][..k];
    }
  }

  lemma {:induction false} FirstLineWithoutNewline(s: Bytes)
    requires Newline !in s
    ensures FirstLine(s) == s
  {
    if s != [] {
      assert s[0] in s;
      assert forall b :: b in s[1..] ==> b in s;
      FirstLineWithoutNewline(s[1..]);
    }
  }

  /**
   * What the first line is: a prefix of `s` with no '\n' before its last
   * byte, ending in '\n' unless it is all of `s`.
   */
  lemma FirstLineShape(s: Bytes)
    ensures |FirstLine(s)| <= |s| && FirstLine(s) == s[..|FirstLine(s)|]
    ensures |FirstLine(s)| > 0 ==> Newline !in FirstLine(s)[..|FirstLine(s)| - 1]
    ensures |FirstLine(s)| < |s| ==> |FirstLine(s)| > 0 && FirstLine(s)[|FirstLine(s)| - 1] == Newline
    ensures |FirstLine(s)| == |s| ==> |s| == 0 || Newline !in s[..|s| - 1]
  {
    FirstLinePrefix(s);
    FirstLineNewlineFree(s);
    FirstLineEnds(s);
  }

  lemma {:induction false} FirstLinePrefix(s: Bytes)
    ensures FirstLine(s) == s[..|FirstLine(s)|]
  {
    if s != [] && s[0] != Newline {
      FirstLinePrefix(s[1..]);
      assert FirstLine(s) == [s[0]] + s[1..][..|FirstLine(s[1..])|];
    }
  }

  lemma {:induction false} FirstLineNewlineFree(s: Bytes)
    ensures |FirstLine(s)| > 0 ==> Newline !in FirstLine(s)[..|FirstLine(s)| - 1]
  {
    if s != [] && s[0] != Newline {
      FirstLineNewlineFree(s[1..]);
      var t := FirstLine(s[1..]);
      if |t| > 0 {
        assert FirstLine(s)[..|FirstLine(s)| - 1] == [s[0]] + t[..|t| - 1];
      } else {
        assert FirstLine(s)[..|FirstLine(s)| - 1] == [];
      }
    }
  }

  lemma {:induction false} FirstLineEnds(s: Bytes)
    ensures |FirstLine(s)| < |s| ==> |FirstLine(s)| > 0 && FirstLine(s)[|FirstLine(s)| - 1] == Newline
  {
    if s != [] && s[0] != Newline {
      FirstLineEnds(s[1..]);
      assert FirstLine(s) == [s[0]] + FirstLine(s[1..]);
    }
  }

  /**
   * The `ReadRune` loop of `AddTemplate` (lines 62-74): read runes, adding
   * each width to `pos`, until a '\n' or EOF, and take `content[0:pos]`.
   */
  method ScanFirstLine(content: Bytes) returns (line: Bytes)
    ensures line == FirstLine(content)
  {
    var pos := 0;
    while true
      invariant pos <= |content|
      invariant Newline !in content[..pos]
      decreases |content| - pos
    {
      var r := ReadRune(content, pos);
      var before := pos;
      pos := pos + r.size;
      if r.ch == Newline as int || r.eof {
        line := content[..pos];
        if r.eof {
          assert content[..pos] == content;
          FirstLineWithoutNewline(content);
        } else {
          FirstLineAtNewline(content, before);
        }
        return;
      }
      assert forall k :: before <= k < pos ==> content[k] != Newline;
      assert forall b :: b in content[..pos] ==> b in content[..before] || exists k :: before <= k < pos && content[k] == b;
    }
  }

  // ------------------------------------------------------------------
  // The directive: what it is, and how the matcher finds it
  // ------------------------------------------------------------------

  /** "{{" at `p`. */
  predicate OpenAt(s: Bytes, p: nat) {
    p + 2 <= |s| && s[p] == 0x7B && s[p + 1] == 0x7B
  }

  /** "}}" at `p`. */
  predicate CloseAt(s: Bytes, p: nat) {
    p + 2 <= |s| && s[p] == 0x7D && s[p + 1] == 0x7D
  }

  /** "extends" at `i`. */
  predicate ExtendsAt(s: Bytes, i: nat) {
    i + 7 <= |s| && s[i] == 0x65 && s[i + 1] == 0x78 && s[i + 2] == 0x74 && s[i + 3] == 0x65 &&
    s[i + 4] == 0x6E && s[i + 5] == 0x64 && s[i + 6] == 0x73
  }

  /** `n` spaces at `i`. */
  predicate SpacesAt(s: Bytes, i: nat, n: nat) {
    i + n <= |s| && forall k :: i <= k < i + n ==> s[k] == Space
  }

  /**
   * A match of the directive pattern at `p`, taken apart: `k1` spaces after
   * "{{", "extends", `k2` >= 1 spaces, the quoted `name` (non-empty, no
   * '\n'), `k3` spaces and "}}".
   */
  ghost predicate DirectiveAt(s: Bytes, p: nat, k1: nat, k2: nat, name: Bytes, k3: nat) {
    var i := p + 2 + k1;
    var j := i + 7;
    var q := j + k2 + 1;
    var e := q + |name|;
    k2 >= 1 && |name| >= 1 && Newline !in name &&
    OpenAt(s, p) && SpacesAt(s, p + 2, k1) && ExtendsAt(s, i) && SpacesAt(s, j, k2) &&
    q <= |s| && s[q - 1] == Quote && e < |s| && s[q..e] == name && s[e] == Quote &&
    SpacesAt(s, e + 1, k3) && CloseAt(s, e + 1 + k3)
  }

  /** The text of a directive with the given parts. */
  function DirectiveText(k1: nat, k2: nat, name: Bytes, k3: nat): Bytes {
    OpenDelims + Spaces(k1) + Extends + Spaces(k2) + [Quote] + name + [Quote] + Spaces(k3) + CloseDelims
  }

  function Spaces(n: nat): (r: Bytes)
    ensures |r| == n && forall k :: 0 <= k < n ==> r[k] == Space
  {
    seq(n, _ => Space)
  }

  /** No directive is shorter than `{{extends "x"}}`, which is 15 bytes. */
  lemma DirectiveLength(s: Bytes, p: nat, k1: nat, k2: nat, name: Bytes, k3: nat)
    requires DirectiveAt(s, p, k1, k2, name, k3)
    ensures p + 15 <= p + |DirectiveText(k1, k2, name, k3)| <= |s|
  {
  }

  /** How many spaces begin `s[i..]`. */
  function SpaceRun(s: Bytes, i: nat): (n: nat)
    requires i <= |s|
    ensures i + n <= |s|
    decreases |s| - i
  {
    if i < |s| && s[i] == Space then 1 + SpaceRun(s, i + 1) else 0
  }

  /** The run of spaces at `i` is made of spaces and cannot be extended. */
  lemma {:induction false} SpaceRunFacts(s: Bytes, i: nat, n: nat)
    requires i <= |s| && n == SpaceRun(s, i)
    ensures SpacesAt(s, i, n)
    ensures i + n == |s| || s[i + n] != Space
    decreases |s| - i
  {
    if i < |s| && s[i] == Space {
      SpaceRunFacts(s, i + 1, n - 1);
    }
  }

  lemma {:induction false} SpaceRunExact(s: Bytes, i: nat, n: nat)
    requires i + n < |s| && s[i + n] != Space
    requires forall k :: i <= k < i + n ==> s[k] == Space
    ensures SpaceRun(s, i) == n
    decreases n
  {
    if n > 0 {
      SpaceRunExact(s, i + 1, n - 1);
    }
  }

  /** At `e` stands the closing quote, followed by spaces and "}}". */
  predicate ClosesAt(s: Bytes, e: nat) {
    e < |s| && s[e] == Quote && CloseAt(s, e + 1 + SpaceRun(s, e + 1))
  }

  /**
   * The lazy `(.+?)`: the capture `s[q..e]` is grown one byte at a time, and
   * the first end at which the rest of the pattern matches is taken.
   */
  function LazyCapture(s: Bytes, q: nat, e: nat): (end: Option<nat>)
    requires q < e <= |s|
    ensures end.Some? ==> e <= end.value < |s|
    decreases |s| - e
  {
    if s[e - 1] == Newline then None
    else if ClosesAt(s, e) then Some(e)
    else if e < |s| then LazyCapture(s, q, e + 1)
    else None
  }

  /**
   * Where the lazy capture ends: at the first `e` from which the closing
   * quote, spaces and "}}" follow, with no '\n' in the bytes it takes.
   */
  lemma {:induction false} LazyCaptureEnd(s: Bytes, q: nat, e: nat)
    requires q < e <= |s| && LazyCapture(s, q, e).Some?
    ensures ClosesAt(s, LazyCapture(s, q, e).value)
    ensures forall k :: e - 1 <= k < LazyCapture(s, q, e).value ==> s[k] != Newline
    ensures forall f :: e <= f < LazyCapture(s, q, e).value ==> !ClosesAt(s, f)
    decreases |s| - e
  {
    if !ClosesAt(s, e) {
      LazyCaptureEnd(s, q, e + 1);
    }
  }

  /** The match of the pattern that starts at `p`, as the captured layout name, if any. */
  function MatchAt(s: Bytes, p: nat): Option<Bytes>
    requires p <= |s|
  {
    if !OpenAt(s, p) then None else AfterOpen(s, p + 2 + SpaceRun(s, p + 2))
  }

  /** The rest of the match once "{{" and its spaces are behind: "extends" at `i`. */
  function AfterOpen(s: Bytes, i: nat): Option<Bytes>
    requires i <= |s|
  {
    if !ExtendsAt(s, i) then None else AfterExtends(s, i + 7)
  }

  /** The rest of the match after "extends": at least one space, then the opening quote. */
  function AfterExtends(s: Bytes, j: nat): Option<Bytes>
    requires j <= |s|
  {
    var k2 := SpaceRun(s, j);
    if k2 == 0 || j + k2 + 1 >= |s| || s[j + k2] != Quote then None
    else CaptureAt(s, j + k2 + 1)
  }

  /** The lazy capture that starts at `q`, as the bytes it takes. */
  function CaptureAt(s: Bytes, q: nat): Option<Bytes>
    requires q < |s|
  {
    match LazyCapture(s, q, q + 1)
    case None => None
    case Some(e) => Some(s[q..e])
  }

  /** Go's `extendsRegex.FindSubmatch(line)[1]`: the capture of the leftmost match. */
  function FindExtends(s: Bytes): Option<Bytes> {
    FindFrom(s, 0)
  }

  function FindFrom(s: Bytes, p: nat): Option<Bytes>
    requires p <= |s|
    decreases |s| - p
  {
    match MatchAt(s, p)
    case Some(name) => Some(name)
    case None => if p < |s| then FindFrom(s, p + 1) else None
  }

  /** Whatever `MatchAt` finds is a directive. */
  lemma MatchAtSound(s: Bytes, p: nat)
    requires p <= |s| && MatchAt(s, p).Some?
    ensures exists k1, k2, k3 :: DirectiveAt(s, p, k1, k2, MatchAt(s, p).value, k3)
  {
    var k1, k2 := MatchAtHead(s, p);
    var q := p + 10 + k1 + k2;
    var e := CaptureAtParts(s, q);
    var k3 := SpaceRun(s, e + 1);
    ClosesAtFacts(s, e, k3);
    SpaceRunFacts(s, p + 2, k1);
    SpaceRunFacts(s, p + 9 + k1, k2);
    DirectiveAtFrom(s, p, k1, k2, q, e, k3);
  }

  /** The fixed parts `MatchAt` found: the two space runs, and the capture that follows them. */
  lemma MatchAtHead(s: Bytes, p: nat) returns (k1: nat, k2: nat)
    requires p <= |s| && MatchAt(s, p).Some?
    ensures OpenAt(s, p) && k1 == SpaceRun(s, p + 2) && ExtendsAt(s, p + 2 + k1)
    ensures k2 == SpaceRun(s, p + 9 + k1) && k2 >= 1
    ensures p + 10 + k1 + k2 < |s| && s[p + 9 + k1 + k2] == Quote
    ensures MatchAt(s, p) == CaptureAt(s, p + 10 + k1 + k2)
  {
    k1 := SpaceRun(s, p + 2);
    MatchAtSome(s, p, k1);
    AfterOpenSome(s, p + 2 + k1, p + 9 + k1);
    k2 := SpaceRun(s, p + 9 + k1);
    AfterExtendsSome(s, p + 9 + k1, k2, p + 10 + k1 + k2);
  }

  lemma MatchAtSome(s: Bytes, p: nat, k1: nat)
    requires p <= |s| && MatchAt(s, p).Some? && k1 == SpaceRun(s, p + 2)
    ensures OpenAt(s, p) && p + 2 + k1 <= |s| && AfterOpen(s, p + 2 + k1) == MatchAt(s, p)
  {
  }

  lemma AfterOpenSome(s: Bytes, i: nat, j: nat)
    requires i <= |s| && AfterOpen(s, i).Some? && j == i + 7
    ensures ExtendsAt(s, i) && j <= |s| && AfterExtends(s, j) == AfterOpen(s, i)
  {
  }

  lemma AfterExtendsSome(s: Bytes, j: nat, k2: nat, q: nat)
    requires j <= |s| && AfterExtends(s, j).Some? && k2 == SpaceRun(s, j) && q == j + k2 + 1
    ensures k2 >= 1 && q < |s| && s[j + k2] == Quote && CaptureAt(s, q) == AfterExtends(s, j)
  {
  }

  /** A capture that succeeds takes the bytes up to a closing quote, none of them '\n'. */
  lemma CaptureAtParts(s: Bytes, q: nat) returns (e: nat)
    requires q < |s| && CaptureAt(s, q).Some?
    ensures q < e < |s| && CaptureAt(s, q) == Some(s[q..e])
    ensures Newline !in s[q..e]
    ensures ClosesAt(s, e)
  {
    e := LazyCapture(s, q, q + 1).value;
    LazyCaptureEnd(s, q, q + 1);
    forall k | 0 <= k < e - q ensures s[q..e][k] != Newline {
      assert s[q..e][k] == s[q + k];
    }
  }

  lemma ClosesAtFacts(s: Bytes, e: nat, k3: nat)
    requires ClosesAt(s, e) && k3 == SpaceRun(s, e + 1)
    ensures s[e] == Quote && SpacesAt(s, e + 1, k3) && CloseAt(s, e + 1 + k3)
  {
    SpaceRunFacts(s, e + 1, k3);
  }

  /** The parts of a directive, given by the positions of its name, make one. */
  lemma DirectiveAtFrom(s: Bytes, p: nat, k1: nat, k2: nat, q: nat, e: nat, k3: nat)
    requires q == p + 10 + k1 + k2 && q < e < |s|
    requires k2 >= 1 && Newline !in s[q..e]
    requires OpenAt(s, p) && SpacesAt(s, p + 2, k1) && ExtendsAt(s, p + 2 + k1)
    requires SpacesAt(s, p + 9 + k1, k2) && s[p + 9 + k1 + k2] == Quote
    requires s[e] == Quote && SpacesAt(s, e + 1, k3) && CloseAt(s, e + 1 + k3)
    ensures DirectiveAt(s, p, k1, k2, s[q..e], k3)
  {
  }

  lemma {:induction false} LazyCaptureReaches(s: Bytes, q: nat, e: nat, end: nat)
    requires q < e <= end < |s|
    requires forall k :: e - 1 <= k < end ==> s[k] != Newline
    requires ClosesAt(s, end)
    ensures LazyCapture(s, q, e).Some? && LazyCapture(s, q, e).value <= end
    decreases end - e
  {
    if !ClosesAt(s, e) {
      LazyCaptureReaches(s, q, e + 1, end);
    }
  }

  /** A directive at `p` is found there, with a capture no longer than its name. */
  lemma MatchAtComplete(s: Bytes, p: nat, k1: nat, k2: nat, name: Bytes, k3: nat)
    requires DirectiveAt(s, p, k1, k2, name, k3)
    ensures MatchAt(s, p).Some? && |MatchAt(s, p).value| <= |name|
  {
    var q := p + 10 + k1 + k2;
    DirectiveFacts(s, p, k1, k2, name, k3);
    LazyCaptureReaches(s, q, q + 1, q + |name|);
    MatchAtFromParts(s, p, k1, k2);
  }

  /** The facts about `s` that a directive at `p` gives the matcher. */
  lemma DirectiveFacts(s: Bytes, p: nat, k1: nat, k2: nat, name: Bytes, k3: nat)
    requires DirectiveAt(s, p, k1, k2, name, k3)
    ensures OpenAt(s, p) && SpaceRun(s, p + 2) == k1 && ExtendsAt(s, p + 2 + k1)
    ensures SpaceRun(s, p + 9 + k1) == k2 && k2 >= 1
    ensures p + 10 + k1 + k2 + |name| < |s| && s[p + 9 + k1 + k2] == Quote
    ensures ClosesAt(s, p + 10 + k1 + k2 + |name|)
    ensures forall k :: p + 10 + k1 + k2 <= k < p + 10 + k1 + k2 + |name| ==> s[k] != Newline
  {
    DirectiveRuns(s, p, k1, k2, name, k3);
    DirectiveEnd(s, p, k1, k2, name, k3);
  }

  /** The two space runs of a directive are maximal. */
  lemma DirectiveRuns(s: Bytes, p: nat, k1: nat, k2: nat, name: Bytes, k3: nat)
    requires DirectiveAt(s, p, k1, k2, name, k3)
    ensures SpaceRun(s, p + 2) == k1 && SpaceRun(s, p + 9 + k1) == k2
  {
    assert SpacesAt(s, p + 2, k1) && p + 2 + k1 < |s| && s[p + 2 + k1] != Space;
    SpaceRunExact(s, p + 2, k1);
    assert SpacesAt(s, p + 9 + k1, k2) && s[p + 9 + k1 + k2] == Quote;
    SpaceRunExact(s, p + 9 + k1, k2);
  }

  /** After the name of a directive come the closing quote, spaces and "}}"; the name crosses no newline. */
  lemma DirectiveEnd(s: Bytes, p: nat, k1: nat, k2: nat, name: Bytes, k3: nat)
    requires DirectiveAt(s, p, k1, k2, name, k3)
    ensures ClosesAt(s, p + 10 + k1 + k2 + |name|)
    ensures forall k :: p + 10 + k1 + k2 <= k < p + 10 + k1 + k2 + |name| ==> s[k] != Newline
  {
    var q := p + 10 + k1 + k2;
    var e := q + |name|;
    assert SpacesAt(s, e + 1, k3) && CloseAt(s, e + 1 + k3);
    SpaceRunExact(s, e + 1, k3);
    DirectiveNameFacts(s, q, name);
  }

  /** The bytes of a name copied from `s` at `q` are those of `s`. */
  lemma DirectiveNameFacts(s: Bytes, q: nat, name: Bytes)
    requires q + |name| <= |s| && s[q..q + |name|] == name && Newline !in name
    ensures forall k :: q <= k < q + |name| ==> s[k] != Newline
  {
    forall k | q <= k < q + |name| ensures s[k] != Newline {
      assert s[k] == name[k - q];
    }
  }

  /** `MatchAt` once its fixed parts are known: the rest is the lazy capture. */
  lemma MatchAtFromParts(s: Bytes, p: nat, k1: nat, k2: nat)
    requires OpenAt(s, p) && SpaceRun(s, p + 2) == k1 && ExtendsAt(s, p + 2 + k1)
    requires SpaceRun(s, p + 9 + k1) == k2 && k2 >= 1
    requires p + 10 + k1 + k2 < |s| && s[p + 9 + k1 + k2] == Quote
    ensures MatchAt(s, p) == CaptureAt(s, p + 10 + k1 + k2)
  {
    MatchAtOpen(s, p, k1);
    AfterOpenExtends(s, p + 2 + k1);
    AfterExtendsQuote(s, p + 9 + k1, k2);
  }

  lemma MatchAtOpen(s: Bytes, p: nat, k1: nat)
    requires OpenAt(s, p) && SpaceRun(s, p + 2) == k1
    ensures MatchAt(s, p) == AfterOpen(s, p + 2 + k1)
  {
  }

  lemma AfterOpenExtends(s: Bytes, i: nat)
    requires ExtendsAt(s, i)
    ensures AfterOpen(s, i) == AfterExtends(s, i + 7)
  {
  }

  lemma AfterExtendsQuote(s: Bytes, j: nat, k2: nat)
    requires j <= |s| && SpaceRun(s, j) == k2 && k2 >= 1 && j + k2 + 1 < |s| && s[j + k2] == Quote
    ensures AfterExtends(s, j) == CaptureAt(s, j + k2 + 1)
  {
  }

  /** The capture is the shortest name of any directive starting at `p`. */
  lemma MatchAtShortest(s: Bytes, p: nat, k1: nat, k2: nat, name: Bytes, k3: nat)
    requires DirectiveAt(s, p, k1, k2, name, k3)
    ensures MatchAt(s, p).Some?
    ensures forall k1', k2', name', k3' :: DirectiveAt(s, p, k1', k2', name', k3') ==> |MatchAt(s, p).value| <= |name'|
    ensures MatchAt(s, p).value == name[..|MatchAt(s, p).value|]
  {
    MatchAtComplete(s, p, k1, k2, name, k3);
    forall k1', k2', name', k3' | DirectiveAt(s, p, k1', k2', name', k3')
      ensures |MatchAt(s, p).value| <= |name'|
    {
      MatchAtComplete(s, p, k1', k2', name', k3');
    }
    MatchAtPrefix(s, p, k1, k2, name, k3);
  }

  /** The capture starts where the directive's name starts, so it is a prefix of the name. */
  lemma MatchAtPrefix(s: Bytes, p: nat, k1: nat, k2: nat, name: Bytes, k3: nat)
    requires DirectiveAt(s, p, k1, k2, name, k3)
    ensures MatchAt(s, p).Some? && |MatchAt(s, p).value| <= |name|
    ensures MatchAt(s, p).value == name[..|MatchAt(s, p).value|]
  {
    MatchAtComplete(s, p, k1, k2, name, k3);
    DirectiveRuns(s, p, k1, k2, name, k3);
    var q := p + 10 + k1 + k2;
    MatchAtFromParts(s, p, k1, k2);
    var c := MatchAt(s, p).value;
    assert c == s[q..q + |c|];
    assert s[q..q + |name|] == name;
    PrefixOfSlice(s, q, |c|, name);
  }

  /** A prefix of a slice is the slice of the prefix. */
  lemma PrefixOfSlice(s: Bytes, q: nat, n: nat, name: Bytes)
    requires q + |name| <= |s| && n <= |name| && s[q..q + |name|] == name
    ensures s[q..q + n] == name[..n]
  {
    assert forall k :: 0 <= k < n ==> name[..n][k] == name[k];
  }

  /** `FindFrom(s, p)` is the match at the first position from `p` on where there is one. */
  lemma {:induction false} FindFromSpec(s: Bytes, p: nat)
    requires p <= |s|
    ensures FindFrom(s, p).None? <==> forall p' :: p <= p' <= |s| ==> MatchAt(s, p').None?
    ensures FindFrom(s, p).Some? ==>
      exists p' :: p <= p' <= |s| && MatchAt(s, p') == FindFrom(s, p) &&
        forall p'' :: p <= p'' < p' ==> MatchAt(s, p'').None?
    decreases |s| - p
  {
    var here := MatchAt(s, p);
    if here.Some? {
      assert FindFrom(s, p) == here;
      assert MatchAt(s, p) == FindFrom(s, p);
    } else if p < |s| {
      assert FindFrom(s, p) == FindFrom(s, p + 1);
      FindFromSpec(s, p + 1);
      if FindFrom(s, p + 1).Some? {
        var p' :| p + 1 <= p' <= |s| && MatchAt(s, p') == FindFrom(s, p + 1) &&
          forall p'' :: p + 1 <= p'' < p' ==> MatchAt(s, p'').None?;
        assert forall p'' :: p <= p'' < p' ==> MatchAt(s, p'').None?;
      }
    } else {
      assert FindFrom(s, p) == None;
    }
  }

  /** Go's FindSubmatch: the capture of the leftmost match, or no match at all. */
  lemma FindExtendsLeftmost(s: Bytes)
    ensures FindExtends(s).None? <==> forall p :: 0 <= p <= |s| ==> MatchAt(s, p).None?
    ensures FindExtends(s).Some? ==>
      exists p :: 0 <= p <= |s| && MatchAt(s, p) == FindExtends(s) &&
        forall p' :: 0 <= p' < p ==> MatchAt(s, p').None?
  {
    FindFromSpec(s, 0);
  }

  /** A line with no directive in it never matches; any match is a directive. */
  lemma FindExtendsIsDirective(s: Bytes)
    ensures FindExtends(s).Some? ==>
      exists p, k1, k2, k3 :: DirectiveAt(s, p, k1, k2, FindExtends(s).value, k3)
    ensures (exists p, k1, k2, name, k3 :: DirectiveAt(s, p, k1, k2, name, k3)) ==> FindExtends(s).Some?
  {
    FindExtendsLeftmost(s);
    if FindExtends(s).Some? {
      var p :| 0 <= p <= |s| && MatchAt(s, p) == FindExtends(s);
      MatchAtSound(s, p);
    }
    if exists p, k1, k2, name, k3 :: DirectiveAt(s, p, k1, k2, name, k3) {
      var p, k1, k2, name, k3 :| DirectiveAt(s, p, k1, k2, name, k3);
      MatchAtComplete(s, p, k1, k2, name, k3);
    }
  }

  /** A found layout name is non-empty and has no '\n'. */
  lemma FindExtendsName(s: Bytes)
    requires FindExtends(s).Some?
    ensures |FindExtends(s).value| >= 1 && Newline !in FindExtends(s).value
    ensures 15 <= |s|
  {
    FindExtendsIsDirective(s);
    var p, k1, k2, k3 :| DirectiveAt(s, p, k1, k2, FindExtends(s).value, k3);
    DirectiveLength(s, p, k1, k2, FindExtends(s).value, k3);
  }

  /** So the 10-byte guard of `AddTemplate` never decides anything: a line that short never matches. */
  lemma ShortLineNeverMatches(s: Bytes)
    requires |s| < MinDirectiveLine
    ensures FindExtends(s).None?
  {
    if FindExtends(s).Some? {
      FindExtendsName(s);
    }
  }
}
