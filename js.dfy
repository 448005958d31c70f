/**
 * The JavaScript semantics the core relies on: truthiness of optional
 * strings (`a || b`), `String.prototype.trim`, `replace` with a string
 * pattern, `Array.prototype.join`, number-to-string for status codes, and
 * the shape of a thrown value (`error instanceof Error`).
 */
module Js {
  import opened Wrappers

  /** A JavaScript value that is falsy when absent or the empty string. */
  predicate Truthy(o: Option<string>) {
    o.Some? && o.value != ""
  }

  /** `a || b`: the first operand when it is truthy, otherwise the second. */
  function Or(a: Option<string>, b: Option<string>): (r: Option<string>)
    ensures Truthy(a) ==> r == a
    ensures !Truthy(a) ==> r == b
  {
    if Truthy(a) then a else b
  }

  /** `a || undefined` (or `a || null`): empty strings become absent. */
  function OrAbsent(a: Option<string>): (r: Option<string>)
    ensures r.Some? <==> Truthy(a)
    ensures r.Some? ==> r == a
  {
    Or(a, None)
  }

  /** `` `${a || ""}` ``: an absent value reads as the empty string. */
  function OrEmpty(a: Option<string>): (r: string)
    ensures Truthy(a) ==> r == a.value
    ensures !Truthy(a) ==> r == ""
  {
    if Truthy(a) then a.value else ""
  }

  /** Boolean `x || false`. */
  function OrFalse(b: Option<bool>): (r: bool)
    ensures r <==> b == Some(true)
  {
    b.Some? && b.value
  }

  /**
   * The characters JavaScript's `trim` and the regular-expression class `\s`
   * treat as white space: WhiteSpace and LineTerminator of ECMAScript
   * (tab, VT, FF, space, NBSP, ZWNBSP, the Zs category, LF, CR, LS, PS).
   */
  predicate IsWhiteSpace(c: char) {
    c == '\t' || c == '\n' || c == '\U{000B}' || c == '\U{000C}' || c == '\r' ||
    c == ' ' || c == '\U{00A0}' || c == '\U{1680}' ||
    ('\U{2000}' <= c <= '\U{200A}') ||
    c == '\U{2028}' || c == '\U{2029}' || c == '\U{202F}' || c == '\U{205F}' ||
    c == '\U{3000}' || c == '\U{FEFF}'
  }

  /** The index of the first character at or after `k` that is not white space, or `|s|`. */
  function SkipWhiteSpace(s: string, k: nat): (i: nat)
    requires k <= |s|
    ensures k <= i <= |s|
    ensures forall m :: k <= m < i ==> IsWhiteSpace(s[m])
    ensures i < |s| ==> !IsWhiteSpace(s[i])
    decreases |s| - k
  {
    if k < |s| && IsWhiteSpace(s[k]) then SkipWhiteSpace(s, k + 1) else k
  }

  /**
   * Going back from `k`, but not below `lo`: the index just past the last
   * character that is not white space, or `lo`.
   */
  function BackOverWhiteSpace(s: string, lo: nat, k: nat): (j: nat)
    requires lo <= k <= |s|
    ensures lo <= j <= k
    ensures forall m :: j <= m < k ==> IsWhiteSpace(s[m])
    ensures lo < j ==> !IsWhiteSpace(s[j - 1])
    decreases k
  {
    if lo < k && IsWhiteSpace(s[k - 1]) then BackOverWhiteSpace(s, lo, k - 1) else k
  }

  /**
   * `String.prototype.trim`: leading and then trailing white space cut away.
   * The result is the slice of `s` that starts where the leading white space
   * ends, with only white space before and after it, and it neither starts
   * nor ends with white space.
   */
  function Trim(s: string): (r: string)
    ensures var i := SkipWhiteSpace(s, 0);
      i + |r| <= |s| && r == s[i..i + |r|] &&
      (forall m :: 0 <= m < i ==> IsWhiteSpace(s[m])) &&
      (forall m :: i + |r| <= m < |s| ==> IsWhiteSpace(s[m]))
    ensures r == [] || (!IsWhiteSpace(r[0]) && !IsWhiteSpace(r[|r| - 1]))
  {
    var i := SkipWhiteSpace(s, 0);
    s[i..BackOverWhiteSpace(s, i, |s|)]
  }

  /** A string that already has no white space at either end is left alone by `trim`. */
  lemma TrimIdentity(s: string)
    requires s == [] || (!IsWhiteSpace(s[0]) && !IsWhiteSpace(s[|s| - 1]))
    ensures Trim(s) == s
  {
    assert SkipWhiteSpace(s, 0) == 0;
    assert BackOverWhiteSpace(s, 0, |s|) == |s|;
  }

  /** A single space appended to a string with no white space at its ends is trimmed away. */
  lemma TrimTrailingSpace(s: string)
    requires s != [] && !IsWhiteSpace(s[0]) && !IsWhiteSpace(s[|s| - 1])
    ensures Trim(s + " ") == s
  {
    var t := s + " ";
    assert t[0] == s[0] && t[|s| - 1] == s[|s| - 1] && t[|s|] == ' ';
    assert SkipWhiteSpace(t, 0) == 0;
    assert BackOverWhiteSpace(t, 0, |s|) == |s|;
    assert BackOverWhiteSpace(t, 0, |t|) == |s|;
    assert t[0..|s|] == s;
  }

  /** A single space prepended to a string with no white space at its ends is trimmed away. */
  lemma TrimLeadingSpace(s: string)
    requires s != [] && !IsWhiteSpace(s[0]) && !IsWhiteSpace(s[|s| - 1])
    ensures Trim(" " + s) == s
  {
    var t := " " + s;
    assert t[0] == ' ' && t[1] == s[0] && t[|t| - 1] == s[|s| - 1];
    assert SkipWhiteSpace(t, 1) == 1;
    assert SkipWhiteSpace(t, 0) == 1;
    assert BackOverWhiteSpace(t, 1, |t|) == |t|;
    assert t[1..] == s;
  }

  /** True when `pat` occurs in `s` at position `k`. */
  predicate OccursAt(s: string, pat: string, k: nat) {
    k + |pat| <= |s| && s[k..k + |pat|] == pat
  }

  /** The index of the first occurrence of `pat` in `s` at or after `from`, as `indexOf`. */
  function IndexOfFrom(s: string, pat: string, from: nat): (r: Option<nat>)
    ensures r.Some? ==> from <= r.value && OccursAt(s, pat, r.value)
    ensures r.Some? ==> forall k :: from <= k < r.value ==> !OccursAt(s, pat, k)
    ensures r.None? ==> forall k :: from <= k ==> !OccursAt(s, pat, k)
    decreases |s| - from
  {
    if from + |pat| > |s| then None
    else if s[from..from + |pat|] == pat then Some(from)
    else IndexOfFrom(s, pat, from + 1)
  }

  /** `s.replace(pat, rep)` with a string pattern: only the first occurrence is replaced. */
  function ReplaceFirst(s: string, pat: string, rep: string): (r: string)
    ensures IndexOfFrom(s, pat, 0).None? ==> r == s
    ensures IndexOfFrom(s, pat, 0).Some? ==>
      var k := IndexOfFrom(s, pat, 0).value;
      r == s[..k] + rep + s[k + |pat|..]
  {
    match IndexOfFrom(s, pat, 0)
    case None => s
    case Some(k) => s[..k] + rep + s[k + |pat|..]
  }

  /** `parts.join(sep)`. */
  function Join(parts: seq<string>, sep: string): (r: string)
    ensures parts == [] ==> r == ""
    ensures |parts| == 1 ==> r == parts[0]
  {
    if parts == [] then ""
    else if |parts| == 1 then parts[0]
    else parts[0] + sep + Join(parts[1..], sep)
  }

  function DigitChar(d: nat): (c: char)
    requires d < 10
    ensures '0' <= c <= '9'
  {
    ['0', '1', '2', '3', '4', '5', '6', '7', '8', '9'][d]
  }

  /** Decimal numeral of a non-negative integer, as JavaScript prints it. */
  function NatToString(n: nat): (r: string)
    ensures |r| >= 1
    ensures forall i :: 0 <= i < |r| ==> '0' <= r[i] <= '9'
    ensures n == 0 <==> r == "0"
    ensures |r| > 1 ==> r[0] != '0'
  {
    if n < 10 then [DigitChar(n)] else NatToString(n / 10) + [DigitChar(n % 10)]
  }

  /** What a `catch` receives: an `Error` with its message, or some other thrown value. */
  datatype Thrown = ErrorObject(message: string) | OtherThrown

  /** `error instanceof Error ? error.message : fallback`. */
  function MessageOr(t: Thrown, fallback: string): (m: string)
    ensures t.ErrorObject? ==> m == t.message
    ensures t.OtherThrown? ==> m == fallback
  {
    match t
    case ErrorObject(msg) => msg
    case OtherThrown => fallback
  }

  /** The outcome of an awaited call: it returned a value, or it threw. */
  datatype Call<+T> = Returned(value: T) | Threw(thrown: Thrown)
}
