/** String helpers shared by the model: the JavaScript string operations the
    source relies on (`trim`, `includes`, `join`, number-to-text), each with
    the property the callers depend on. */
module Text {
  import opened Wrappers

  /** `t` occurs in `s` starting at index `i`. */
  predicate OccursAt(s: string, t: string, i: int) {
    0 <= i && i + |t| <= |s| && s[i..i + |t|] == t
  }

  /** `s` contains `t` as a contiguous run (JavaScript `s.includes(t)`). */
  predicate Contains(s: string, t: string) {
    exists i | 0 <= i <= |s| - |t| :: OccursAt(s, t, i)
  }

  lemma ContainsMiddle(a: string, b: string, c: string)
    ensures Contains(a + b + c, b)
  {
    var s := a + b + c;
    assert s[|a|..|a| + |b|] == b;
    assert OccursAt(s, b, |a|);
  }

  lemma ContainsSelf(t: string)
    ensures Contains(t, t)
  {
    assert OccursAt(t, t, 0);
  }

  lemma ContainsLeft(s: string, u: string, t: string)
    requires Contains(s, t)
    ensures Contains(s + u, t)
  {
    var i :| 0 <= i <= |s| - |t| && OccursAt(s, t, i);
    assert (s + u)[i..i + |t|] == s[i..i + |t|];
    assert OccursAt(s + u, t, i);
  }

  lemma ContainsRight(s: string, u: string, t: string)
    requires Contains(u, t)
    ensures Contains(s + u, t)
  {
    var i :| 0 <= i <= |u| - |t| && OccursAt(u, t, i);
    assert (s + u)[|s| + i..|s| + i + |t|] == u[i..i + |t|];
    assert OccursAt(s + u, t, |s| + i);
  }

  lemma ContainsTransitive(s: string, t: string, u: string)
    requires Contains(s, t) && Contains(t, u)
    ensures Contains(s, u)
  {
    var i :| 0 <= i <= |s| - |t| && OccursAt(s, t, i);
    var j :| 0 <= j <= |t| - |u| && OccursAt(t, u, j);
    forall k | 0 <= k < |u| ensures s[i + j + k] == u[k] {
      assert t[j + k] == u[k];
      assert s[i..i + |t|][j + k] == s[i + j + k];
    }
    assert s[i + j..i + j + |u|] == u;
    assert OccursAt(s, u, i + j);
  }

  /** The characters JavaScript's `String.prototype.trim` removes
      (WhiteSpace and LineTerminator of ECMA-262). */
  predicate IsWhitespace(c: char) {
    c == ' ' || c == '\t' || c == '\n' || c == '\r' || c == '\U{000B}' || c == '\U{000C}'
    || c == '\U{00A0}' || c == '\U{1680}' || ('\U{2000}' <= c <= '\U{200A}')
    || c == '\U{2028}' || c == '\U{2029}' || c == '\U{202F}' || c == '\U{205F}'
    || c == '\U{3000}' || c == '\U{FEFF}'
  }

  predicate AllWhitespace(s: string) {
    forall k | 0 <= k < |s| :: IsWhitespace(s[k])
  }

  /** JavaScript `s.trimStart()`: leading whitespace removed. */
  function TrimStart(s: string): string
  {
    if |s| > 0 && IsWhitespace(s[0]) then TrimStart(s[1..]) else s
  }

  /** What `TrimStart` removes is a run of whitespace at the front, and what
      it keeps does not start with whitespace. */
  lemma {:induction false} TrimStartMeaning(s: string)
    ensures |TrimStart(s)| <= |s| && TrimStart(s) == s[|s| - |TrimStart(s)|..]
    ensures TrimStart(s) == [] || !IsWhitespace(TrimStart(s)[0])
    ensures AllWhitespace(s[..|s| - |TrimStart(s)|])
  {
    if |s| > 0 && IsWhitespace(s[0]) {
      var r := TrimStart(s[1..]);
      assert TrimStart(s) == r;
      TrimStartMeaning(s[1..]);
      assert s[1..][|s| - 1 - |r|..] == s[|s| - |r|..];
      forall k | 0 <= k < |s| - |r| ensures IsWhitespace(s[k]) {
        if k > 0 { assert s[k] == s[1..][..|s| - 1 - |r|][k - 1]; }
      }
    }
  }

  /** Text that does not start with white space is kept whole. */
  lemma TrimStartKeeps(s: string)
    requires s != [] && !IsWhitespace(s[0])
    ensures TrimStart(s) == s
  {
  }

  /** JavaScript `s.trim()`: leading and trailing whitespace removed. */
  function Trim(s: string): (r: string)
    ensures |r| <= |s|
    ensures r == [] || (!IsWhitespace(r[0]) && !IsWhitespace(r[|r| - 1]))
    decreases |s|
  {
    if |s| > 0 && IsWhitespace(s[0]) then Trim(s[1..])
    else if |s| > 0 && IsWhitespace(s[|s| - 1]) then Trim(s[..|s| - 1])
    else s
  }

  /** `s` is split by `Trim(s)` into the white space it removed at the
      front, the kept text, and the white space it removed at the back. */
  predicate TrimmedAt(s: string, r: string, i: int) {
    OccursAt(s, r, i) && AllWhitespace(s[..i]) && AllWhitespace(s[i + |r|..])
  }

  /** `Trim` splits `s` into removed white space, the kept text, and removed
      white space. */
  lemma {:induction false} TrimSplit(s: string)
    ensures exists i | 0 <= i <= |s| - |Trim(s)| :: TrimmedAt(s, Trim(s), i)
    decreases |s|
  {
    var r := Trim(s);
    if |s| > 0 && IsWhitespace(s[0]) {
      assert r == Trim(s[1..]);
      TrimSplit(s[1..]);
      var i :| 0 <= i <= |s[1..]| - |r| && TrimmedAt(s[1..], r, i);
      TrimmedAfterLead(s, r, i);
    } else if |s| > 0 && IsWhitespace(s[|s| - 1]) {
      assert r == Trim(s[..|s| - 1]);
      TrimSplit(s[..|s| - 1]);
      var i :| 0 <= i <= |s[..|s| - 1]| - |r| && TrimmedAt(s[..|s| - 1], r, i);
      TrimmedAfterTrail(s, r, i);
    } else {
      assert s[..0] == [] && s[|s|..] == [];
      assert TrimmedAt(s, s, 0);
    }
  }

  /** One more white-space character in front moves the split by one. */
  lemma TrimmedAfterLead(s: string, r: string, i: nat)
    requires |s| > 0 && IsWhitespace(s[0])
    requires i <= |s| - 1 - |r| && TrimmedAt(s[1..], r, i)
    ensures TrimmedAt(s, r, i + 1)
  {
    var tail := s[1..];
    assert s[i + 1..i + 1 + |r|] == tail[i..i + |r|];
    assert s[i + 1 + |r|..] == tail[i + |r|..];
    var lead := s[..i + 1];
    forall k | 0 <= k < |lead| ensures IsWhitespace(lead[k]) {
      if k > 0 { assert lead[k] == tail[..i][k - 1]; }
    }
  }

  /** One more white-space character at the back keeps the split. */
  lemma TrimmedAfterTrail(s: string, r: string, i: nat)
    requires |s| > 0 && IsWhitespace(s[|s| - 1])
    requires i <= |s| - 1 - |r| && TrimmedAt(s[..|s| - 1], r, i)
    ensures TrimmedAt(s, r, i)
  {
    var front := s[..|s| - 1];
    assert s[i..i + |r|] == front[i..i + |r|];
    assert s[..i] == front[..i];
    assert s[i + |r|..] == front[i + |r|..] + [s[|s| - 1]];
  }

  /** What `Trim` removes on each side is white space, and what it keeps
      neither starts nor ends with white space; it is empty exactly when `s`
      is all white space. */
  lemma {:induction false} TrimMeaning(s: string)
    ensures exists i | 0 <= i <= |s| - |Trim(s)| :: TrimmedAt(s, Trim(s), i)
    ensures Trim(s) == [] || (!IsWhitespace(Trim(s)[0]) && !IsWhitespace(Trim(s)[|Trim(s)| - 1]))
    ensures Trim(s) == [] <==> AllWhitespace(s)
    decreases |s|
  {
    TrimSplit(s);
    var r := Trim(s);
    if |s| > 0 && IsWhitespace(s[0]) {
      var tail := s[1..];
      assert r == Trim(tail);
      TrimMeaning(tail);
      assert AllWhitespace(s) <==> AllWhitespace(tail) by {
        if AllWhitespace(tail) {
          forall k | 0 <= k < |s| ensures IsWhitespace(s[k]) {
            if k > 0 { assert s[k] == tail[k - 1]; }
          }
        }
      }
    } else if |s| > 0 && IsWhitespace(s[|s| - 1]) {
      var front := s[..|s| - 1];
      assert r == Trim(front);
      TrimMeaning(front);
      assert !AllWhitespace(s) && !AllWhitespace(front) by {
        assert front[0] == s[0];
      }
    } else {
      assert s != [] ==> !IsWhitespace(s[0]);
    }
  }

  /** JavaScript `parts.join(sep)`. */
  function Join(parts: seq<string>, sep: string): (r: string)
    ensures parts == [] ==> r == ""
    ensures |parts| == 1 ==> r == parts[0]
  {
    if |parts| == 0 then ""
    else if |parts| == 1 then parts[0]
    else parts[0] + sep + Join(parts[1..], sep)
  }

  /** Every part of a join appears in the joined text. */
  lemma {:induction false} JoinContainsPart(parts: seq<string>, sep: string, k: nat)
    requires k < |parts|
    ensures Contains(Join(parts, sep), parts[k])
  {
    if |parts| == 1 {
      ContainsMiddle("", parts[0], "");
      assert "" + parts[0] + "" == parts[0];
    } else if k == 0 {
      ContainsMiddle("", parts[0], sep + Join(parts[1..], sep));
      assert "" + parts[0] + (sep + Join(parts[1..], sep)) == Join(parts, sep);
    } else {
      JoinContainsPart(parts[1..], sep, k - 1);
      var rest := Join(parts[1..], sep);
      ContainsMiddle(parts[0] + sep, rest, "");
      assert parts[0] + sep + rest + "" == Join(parts, sep);
      ContainsTransitive(Join(parts, sep), rest, parts[k]);
    }
  }

  predicate IsDigit(c: char) { '0' <= c <= '9' }

  function DigitChar(d: nat): (c: char)
    requires d < 10
    ensures IsDigit(c) && (c as int) - ('0' as int) == d
  {
    ['0', '1', '2', '3', '4', '5', '6', '7', '8', '9'][d]
  }

  /** The value of a string of decimal digits. */
  function DecimalValue(s: string): int
    requires forall k | 0 <= k < |s| :: IsDigit(s[k])
  {
    if s == [] then 0 else 10 * DecimalValue(s[..|s| - 1]) + ((s[|s| - 1] as int) - ('0' as int))
  }

  /** Decimal rendering of a natural number, as a JavaScript template renders
      an integer: digits only, no leading zero, and reading it back gives `n`. */
  function NatToString(n: nat): (r: string)
    ensures |r| >= 1 && forall k | 0 <= k < |r| :: IsDigit(r[k])
    ensures r[0] == '0' ==> r == "0"
    ensures DecimalValue(r) == n
  {
    if n < 10 then [DigitChar(n)]
    else
      var front := NatToString(n / 10);
      var r := front + [DigitChar(n % 10)];
      assert r[..|r| - 1] == front;
      r
  }

  /** Decimal rendering of an integer, with a leading `-` when negative. */
  function IntToString(i: int): (r: string)
    ensures |r| >= 1
    ensures i >= 0 ==> r == NatToString(i)
    ensures i < 0 ==> r == "-" + NatToString(-i)
  {
    if i < 0 then "-" + NatToString(-i) else NatToString(i)
  }

  /** First index of `c` in `s` (JavaScript `indexOf`), if any. */
  function IndexOf(s: string, c: char): (r: Option<nat>)
    ensures r.Some? ==> r.value < |s| && s[r.value] == c
    ensures r.Some? ==> forall k | 0 <= k < r.value :: s[k] != c
    ensures r.None? ==> forall k | 0 <= k < |s| :: s[k] != c
  {
    if |s| == 0 then None
    else if s[0] == c then Some(0)
    else
      match IndexOf(s[1..], c)
      case None => None
      case Some(i) => Some(i + 1)
  }

  /** Last index of `c` in `s` (JavaScript `lastIndexOf`), if any. */
  function LastIndexOf(s: string, c: char): (r: Option<nat>)
    ensures r.Some? ==> r.value < |s| && s[r.value] == c
    ensures r.Some? ==> forall k | r.value < k < |s| :: s[k] != c
    ensures r.None? ==> forall k | 0 <= k < |s| :: s[k] != c
  {
    if |s| == 0 then None
    else if s[|s| - 1] == c then Some(|s| - 1)
    else
      match LastIndexOf(s[..|s| - 1], c)
      case None => None
      case Some(i) => Some(i)
  }

  /** What a greedy regular expression `open [\s\S]* close` matches in `s`
      (`/\{[\s\S]*\}/` or `/\[[\s\S]*\]/`): the run from the first `open` to the
      last `close`, or nothing when no `close` follows the first `open`. */
  function GreedySpan(s: string, open: char, close: char): (r: Option<string>)
    requires open != close
    ensures r.Some? ==> exists i, j | 0 <= i < j < |s| ::
      && r.value == s[i..j + 1]
      && s[i] == open && (forall k | 0 <= k < i :: s[k] != open)
      && s[j] == close && (forall k | j < k < |s| :: s[k] != close)
    ensures r.None? <==> (forall i, j | 0 <= i < j < |s| :: !(s[i] == open && s[j] == close))
  {
    match (IndexOf(s, open), LastIndexOf(s, close))
    case (Some(i), Some(j)) =>
      if i < j then Some(s[i..j + 1])
      else None
    case (None, _) => None
    case (_, None) => None
  }

  /** A string operand that `||` keeps: present and non-empty. */
  predicate Given(a: Option<string>) {
    a.Some? && a.value != ""
  }

  /** `a || b` on strings: `a` when it is set and non-empty, otherwise `b`. */
  function OrElse(a: Option<string>, b: string): (r: string)
    ensures Given(a) ==> r == a.value
    ensures !Given(a) ==> r == b
  {
    if a.Some? && a.value != "" then a.value else b
  }
}
