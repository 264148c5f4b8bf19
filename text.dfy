/**
 * The few JavaScript string operations the core uses, on `seq<char>`:
 * `split` on a one-character separator, `join`, `trim` and `toLowerCase`.
 *
 * `ToLower` maps only the ASCII letters A-Z; JavaScript's `toLowerCase`
 * also folds non-ASCII letters, which this model does not. `Trim` removes
 * the characters ECMAScript counts as white space or line terminators.
 */
module Text {

  /** ECMAScript WhiteSpace and LineTerminator code points: what `trim` removes. */
  predicate IsWhitespace(c: char) {
    c == ' ' || c == '\t' || c == '\n' || c == '\r' || c == '\U{000B}' || c == '\U{000C}'
    || c == '\U{00A0}' || c == '\U{1680}' || ('\U{2000}' <= c <= '\U{200A}')
    || c == '\U{2028}' || c == '\U{2029}' || c == '\U{202F}' || c == '\U{205F}'
    || c == '\U{3000}' || c == '\U{FEFF}'
  }

  predicate IsUpper(c: char) {
    'A' <= c <= 'Z'
  }

  /** `b` occurs in `a` starting at position `i`. */
  predicate OccursAt(a: string, b: string, i: int) {
    0 <= i <= |a| - |b| && a[i..i + |b|] == b
  }

  /** Position of the first `c` in `s`, or `|s|` when `s` has none. */
  function IndexOf(s: string, c: char): (i: nat)
    ensures i <= |s|
    ensures i < |s| ==> s[i] == c
    ensures forall k :: 0 <= k < i ==> s[k] != c
  {
    if s == [] then 0
    else if s[0] == c then 0
    else 1 + IndexOf(s[1..], c)
  }

  /**
   * `s.split(sep)`: the pieces between the separators, empty pieces
   * included, so that there is always at least one piece.
   */
  function Split(s: string, sep: char): (parts: seq<string>)
    ensures |parts| >= 1
    ensures forall k :: 0 <= k < |parts| ==> sep !in parts[k]
    decreases |s|
  {
    var i := IndexOf(s, sep);
    if i == |s| then [s] else [s[..i]] + Split(s[i + 1..], sep)
  }

  /** `parts.join(sep)`. */
  function Join(parts: seq<string>, sep: string): string
  {
    if |parts| == 0 then ""
    else if |parts| == 1 then parts[0]
    else parts[0] + sep + Join(parts[1..], sep)
  }

  /** A text occurs in a longer text once something is put before or after it. */
  lemma OccursAtExtend(a: string, b: string, i: int, before: string, after: string)
    requires OccursAt(a, b, i)
    ensures OccursAt(before + a + after, b, |before| + i)
  {
    var s := before + a + after;
    assert s[|before| + i..|before| + i + |b|] == a[i..i + |b|];
  }

  /** Each piece occurs in the join of the pieces. */
  lemma {:induction false} JoinOccurs(parts: seq<string>, sep: string, k: nat) returns (j: nat)
    requires k < |parts|
    ensures OccursAt(Join(parts, sep), parts[k], j)
    decreases |parts|
  {
    var s := Join(parts, sep);
    if |parts| == 1 {
      assert s[0..|parts[0]|] == parts[0];
      j := 0;
    } else {
      var tail := Join(parts[1..], sep);
      assert s == parts[0] + sep + tail;
      if k == 0 {
        assert s[0..|parts[0]|] == parts[0];
        j := 0;
      } else {
        var t := JoinOccurs(parts[1..], sep, k - 1);
        OccursAtExtend(tail, parts[k], t, parts[0] + sep, []);
        assert parts[0] + sep + tail + [] == s;
        j := |parts[0] + sep| + t;
      }
    }
  }

  /** Splitting yields more than one piece exactly when the separator occurs. */
  lemma SplitMany(s: string, sep: char)
    ensures |Split(s, sep)| > 1 <==> sep in s
  {
    var i := IndexOf(s, sep);
    if sep in s {
      var k :| 0 <= k < |s| && s[k] == sep;
      assert i <= k;
    }
  }

  /** Joining the pieces back with the separator gives the original text. */
  lemma {:induction false} JoinSplit(s: string, sep: char)
    ensures Join(Split(s, sep), [sep]) == s
    decreases |s|
  {
    var i := IndexOf(s, sep);
    if i < |s| {
      var rest := Split(s[i + 1..], sep);
      JoinSplit(s[i + 1..], sep);
      assert Split(s, sep) == [s[..i]] + rest;
      assert Split(s, sep)[1..] == rest;
      assert s == s[..i] + [sep] + s[i + 1..];
    }
  }

  /** The first separator after a separator-free prefix sits right after it. */
  lemma IndexOfAfter(p: string, sep: char, t: string)
    requires sep !in p
    ensures IndexOf(p + [sep] + t, sep) == |p|
  {
    var s := p + [sep] + t;
    assert s[|p|] == sep;
  }

  /** Splitting a join of separator-free pieces gives the pieces back. */
  lemma {:induction false} SplitJoin(parts: seq<string>, sep: char)
    requires |parts| >= 1
    requires forall k :: 0 <= k < |parts| ==> sep !in parts[k]
    ensures Split(Join(parts, [sep]), sep) == parts
    decreases |parts|
  {
    var s := Join(parts, [sep]);
    if |parts| == 1 {
      assert s == parts[0];
    } else {
      var tail := Join(parts[1..], [sep]);
      assert s == parts[0] + [sep] + tail;
      IndexOfAfter(parts[0], sep, tail);
      assert s[..|parts[0]|] == parts[0];
      assert s[|parts[0]| + 1..] == tail;
      SplitJoin(parts[1..], sep);
      assert parts == [parts[0]] + parts[1..];
    }
  }

  /** Without the separator, splitting gives the whole text as its one piece. */
  lemma SplitAbsent(s: string, sep: char)
    requires sep !in s
    ensures Split(s, sep) == [s]
  {
  }

  /** How many white-space characters `s` starts with. */
  function LeadingSpace(s: string): (n: nat)
    ensures n <= |s|
  {
    if s != [] && IsWhitespace(s[0]) then 1 + LeadingSpace(s[1..]) else 0
  }

  /** How many white-space characters `s` ends with. */
  function TrailingSpace(s: string): (n: nat)
    ensures n <= |s|
  {
    if s != [] && IsWhitespace(s[|s| - 1]) then 1 + TrailingSpace(s[..|s| - 1]) else 0
  }

  /** `LeadingSpace` counts the whole leading run of white space and no more. */
  lemma {:induction false} LeadingSpaceRun(s: string)
    ensures forall k :: 0 <= k < LeadingSpace(s) ==> IsWhitespace(s[k])
    ensures LeadingSpace(s) < |s| ==> !IsWhitespace(s[LeadingSpace(s)])
  {
    if s != [] && IsWhitespace(s[0]) {
      LeadingSpaceRun(s[1..]);
    }
  }

  /** `TrailingSpace` counts the whole trailing run of white space and no more. */
  lemma {:induction false} TrailingSpaceRun(s: string)
    ensures forall k :: |s| - TrailingSpace(s) <= k < |s| ==> IsWhitespace(s[k])
    ensures TrailingSpace(s) < |s| ==> !IsWhitespace(s[|s| - 1 - TrailingSpace(s)])
  {
    if s != [] && IsWhitespace(s[|s| - 1]) {
      TrailingSpaceRun(s[..|s| - 1]);
    }
  }

  /** Where the piece `Trim` keeps ends: before the trailing white space. */
  function TrimEndAt(s: string): (j: nat)
    ensures j <= |s|
  {
    |s| - TrailingSpace(s)
  }

  /** Where the piece `Trim` keeps starts: after the leading white space. */
  function TrimStartAt(s: string): (i: nat)
    ensures i <= TrimEndAt(s)
  {
    LeadingSpace(s[..TrimEndAt(s)])
  }

  /** `s.trim()`: what is left once the leading and the trailing white space are dropped. */
  function Trim(s: string): (r: string)
    ensures |r| <= |s|
  {
    s[TrimStartAt(s)..TrimEndAt(s)]
  }

  /**
   * Everything `Trim` drops is white space, and neither end of what it keeps
   * is.
   */
  lemma TrimSpec(s: string)
    ensures forall k :: 0 <= k < TrimStartAt(s) || TrimEndAt(s) <= k < |s| ==> IsWhitespace(s[k])
    ensures Trim(s) != [] ==> !IsWhitespace(Trim(s)[0]) && !IsWhitespace(Trim(s)[|Trim(s)| - 1])
  {
    var j := TrimEndAt(s);
    var e := s[..j];
    TrailingSpaceRun(s);
    LeadingSpaceRun(e);
    assert forall k :: 0 <= k < TrimStartAt(s) ==> IsWhitespace(e[k]);
  }

  /** Trimming keeps exactly the characters that are not white space. */
  lemma TrimKeeps(s: string, c: char)
    requires !IsWhitespace(c)
    ensures c in Trim(s) <==> c in s
  {
    TrimSpec(s);
    var i, j := TrimStartAt(s), TrimEndAt(s);
    if c in s {
      var k :| 0 <= k < |s| && s[k] == c;
      assert i <= k < j;
      assert Trim(s)[k - i] == c;
    }
  }

  /** Text already free of white space at both ends is left as it is. */
  lemma TrimNoOp(s: string)
    requires s != [] ==> !IsWhitespace(s[0]) && !IsWhitespace(s[|s| - 1])
    ensures Trim(s) == s
  {
    if s != [] {
      assert TrailingSpace(s) == 0;
      assert s[..|s|] == s;
    }
  }

  /** Trimming twice is trimming once. */
  lemma TrimIdempotent(s: string)
    ensures Trim(Trim(s)) == Trim(s)
  {
    TrimSpec(s);
    TrimNoOp(Trim(s));
  }

  /** `c.toLowerCase()` for the ASCII letters; every other character is kept. */
  function LowerChar(c: char): char
  {
    if IsUpper(c) then (c as int + 32) as char else c
  }

  /** `s.toLowerCase()`, ASCII only: no upper-case letter remains and nothing else changes. */
  function ToLower(s: string): (r: string)
    ensures |r| == |s|
    ensures forall k :: 0 <= k < |r| ==> !IsUpper(r[k])
    ensures forall k :: 0 <= k < |s| && !IsUpper(s[k]) ==> r[k] == s[k]
    ensures forall k :: 0 <= k < |s| && IsUpper(s[k]) ==> r[k] as int == s[k] as int - 'A' as int + 'a' as int
  {
    seq(|s|, k requires 0 <= k < |s| => LowerChar(s[k]))
  }

  /** Lower-casing twice is lower-casing once. */
  lemma ToLowerIdempotent(s: string)
    ensures ToLower(ToLower(s)) == ToLower(s)
  {
  }
}
