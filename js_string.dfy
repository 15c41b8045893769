/**
 * The JavaScript string built-ins that the components rely on: truthiness of a
 * string-typed property, `Array.prototype.includes` over string constants,
 * `String.prototype.trim` and `String.prototype.replace` with a one-character
 * string pattern.
 */
module JsString {

  /** A string-typed component property, which the host may also set to `null` (or leave `undefined`). */
  datatype Nullable = Null | Str(value: string)

  /** JavaScript truthiness of such a property: `null`, `undefined` and `''` are falsy. */
  predicate Truthy(p: Nullable) {
    p.Str? && p.value != ""
  }

  /** `allowed.includes(p)` for an array of string constants (strict equality, so `null` is never included). */
  predicate Includes(allowed: seq<string>, p: Nullable) {
    p.Str? && p.value in allowed
  }

  /**
   * The code points `String.prototype.trim` strips: WhiteSpace (tab, vertical tab,
   * form feed, ZWNBSP and every space separator) and LineTerminator, as listed in
   * sections 12.2 and 12.3 of ECMA-262.
   */
  predicate IsWhitespace(c: char) {
    || c == '\t' || c == '\U{B}' || c == '\U{C}' || c == '\U{FEFF}'
    || c == ' ' || c == '\U{A0}' || c == '\U{1680}' || ('\U{2000}' <= c <= '\U{200A}')
    || c == '\U{202F}' || c == '\U{205F}' || c == '\U{3000}'
    || c == '\n' || c == '\r' || c == '\U{2028}' || c == '\U{2029}'
  }

  predicate AllWhitespace(s: string) {
    forall i :: 0 <= i < |s| ==> IsWhitespace(s[i])
  }

  /** No leading and no trailing whitespace: the shape of every result of `trim`. */
  predicate Trimmed(s: string) {
    s == [] || (!IsWhitespace(s[0]) && !IsWhitespace(s[|s| - 1]))
  }

  /** Strips leading whitespace: the result is the suffix left after a run of whitespace. */
  function TrimStart(s: string): (r: string)
    ensures |r| <= |s| && r == s[|s| - |r|..]
    ensures AllWhitespace(s[..|s| - |r|])
    ensures r != [] ==> !IsWhitespace(r[0])
  {
    if s != [] && IsWhitespace(s[0]) then TrimStart(s[1..]) else s
  }

  /** Strips trailing whitespace: the result is the prefix before a run of whitespace. */
  function TrimEnd(s: string): (r: string)
    ensures |r| <= |s| && r == s[..|r|]
    ensures AllWhitespace(s[|r|..])
    ensures r != [] ==> !IsWhitespace(r[|r| - 1])
  {
    if s != [] && IsWhitespace(s[|s| - 1]) then TrimEnd(s[..|s| - 1]) else s
  }

  /** `s.trim()`: empty exactly when `s` is all whitespace, and otherwise without whitespace at either end. */
  function Trim(s: string): (r: string)
    ensures |r| <= |s|
    ensures Trimmed(r)
    ensures r == "" <==> AllWhitespace(s)
  {
    TrimEmptyOnlyForWhitespace(s);
    TrimEnd(TrimStart(s))
  }

  lemma TrimEmptyOnlyForWhitespace(s: string)
    ensures TrimEnd(TrimStart(s)) == "" <==> AllWhitespace(s)
  {
    var t := TrimStart(s);
    if AllWhitespace(s) {
      TrimStartOfWhitespace(s);
    }
    if TrimEnd(t) == "" {
      assert t[0..] == t;
      assert s == s[..|s| - |t|] + t;
      AllWhitespaceConcat(s[..|s| - |t|], t);
    }
  }

  lemma {:induction false} TrimStartOfWhitespace(s: string)
    requires AllWhitespace(s)
    ensures TrimStart(s) == []
  {
    if s != [] {
      TrimStartOfWhitespace(s[1..]);
    }
  }

  lemma AllWhitespaceConcat(a: string, b: string)
    requires AllWhitespace(a) && AllWhitespace(b)
    ensures AllWhitespace(a + b)
  {
    forall i | 0 <= i < |a + b| ensures IsWhitespace((a + b)[i]) {
      if i < |a| { assert (a + b)[i] == a[i]; } else { assert (a + b)[i] == b[i - |a|]; }
    }
  }

  /** Stripping whitespace that surrounds an already trimmed string gives that string back. */
  lemma {:induction false} TrimStartPadded(w: string, t: string)
    requires AllWhitespace(w) && (t == [] || !IsWhitespace(t[0]))
    ensures TrimStart(w + t) == t
  {
    if w == [] {
      assert w + t == t;
    } else {
      assert (w + t)[1..] == w[1..] + t;
      TrimStartPadded(w[1..], t);
    }
  }

  lemma {:induction false} TrimEndPadded(t: string, w: string)
    requires (t == [] || !IsWhitespace(t[|t| - 1])) && AllWhitespace(w)
    ensures TrimEnd(t + w) == t
  {
    if w == [] {
      assert t + w == t;
    } else {
      assert (t + w)[..|t + w| - 1] == t + w[..|w| - 1];
      TrimEndPadded(t, w[..|w| - 1]);
    }
  }

  /** `trim` returns exactly the part between the leading and the trailing whitespace. */
  lemma TrimPadded(lead: string, t: string, trail: string)
    requires AllWhitespace(lead) && Trimmed(t) && AllWhitespace(trail)
    ensures Trim(lead + t + trail) == t
  {
    assert lead + t + trail == lead + (t + trail);
    if t == [] {
      var w := lead + trail;
      AllWhitespaceConcat(lead, trail);
      assert lead + t + trail == w + [];
      TrimStartPadded(w, []);
    } else {
      TrimStartPadded(lead, t + trail);
      TrimEndPadded(t, trail);
    }
  }

  /** `trim` is idempotent. */
  lemma TrimIdempotent(s: string)
    ensures Trim(Trim(s)) == Trim(s)
  {
    var r := Trim(s);
    assert [] + r + [] == r;
    TrimPadded([], r, []);
  }

  /** `s.indexOf(c)`: the first position of `c` in `s`, or -1 when `c` does not occur. */
  function IndexOf(s: string, c: char): (k: int)
    ensures -1 <= k < |s|
    ensures k == -1 <==> c !in s
    ensures k >= 0 ==> s[k] == c && c !in s[..k]
  {
    if s == [] then -1
    else if s[0] == c then 0
    else
      var k := IndexOf(s[1..], c);
      if k == -1 then -1 else k + 1
  }

  /**
   * `s.replace(from, to)` with one-character strings `from` and `to` (and no `$`
   * pattern in `to`): only the first occurrence of `from` is replaced.
   */
  function ReplaceFirst(s: string, from: char, to: char): (r: string)
    ensures |r| == |s|
    ensures from !in s ==> r == s
    ensures from in s ==> r == s[..IndexOf(s, from)] + [to] + s[IndexOf(s, from) + 1..]
  {
    if s == [] then []
    else if s[0] == from then [to] + s[1..]
    else
      var r := [s[0]] + ReplaceFirst(s[1..], from, to);
      assert from in s ==> from in s[1..] && IndexOf(s, from) == IndexOf(s[1..], from) + 1;
      r
  }

  /** `indexOf` finds the first occurrence and no other. */
  lemma {:induction false} IndexOfAt(s: string, k: nat, c: char)
    requires k < |s| && s[k] == c && c !in s[..k]
    ensures IndexOf(s, c) == k
  {
    if k > 0 {
      assert s[0] == s[..k][0];
      assert s[1..][..k - 1] == s[1..k];
      assert s[1..][k - 1] == s[k];
      assert c !in s[1..k] by {
        forall j | 0 <= j < k - 1 ensures s[1..k][j] != c {
          assert s[1..k][j] == s[..k][j + 1];
        }
      }
      IndexOfAt(s[1..], k - 1, c);
    }
  }

  /** When the first `from` is at `k`, `replace` rewrites position `k` and nothing else. */
  lemma ReplaceFirstAt(s: string, k: nat, from: char, to: char)
    requires k < |s| && s[k] == from && from !in s[..k]
    ensures ReplaceFirst(s, from, to) == s[..k] + [to] + s[k + 1..]
  {
    IndexOfAt(s, k, from);
  }
}
