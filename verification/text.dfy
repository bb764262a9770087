/**
  Python's `str.strip()` with no argument: removes the leading and the
  trailing characters for which `str.isspace()` holds.
 */
module Text {

  /** The characters `str.isspace()` accepts. */
  predicate IsSpace(c: char)
  {
    || c == ' ' || c == '\t' || c == '\n' || c == '\r'
    || c == '\U{000B}' || c == '\U{000C}'
    || ('\U{001C}' <= c <= '\U{001F}')
    || c == '\U{0085}' || c == '\U{00A0}' || c == '\U{1680}'
    || ('\U{2000}' <= c <= '\U{200A}')
    || c == '\U{2028}' || c == '\U{2029}' || c == '\U{202F}'
    || c == '\U{205F}' || c == '\U{3000}'
  }

  predicate AllSpace(s: string)
  {
    forall i :: 0 <= i < |s| ==> IsSpace(s[i])
  }

  /** A string `strip()` leaves alone: empty, or neither end is whitespace. */
  predicate Trimmed(s: string)
  {
    s == [] || (!IsSpace(s[0]) && !IsSpace(s[|s| - 1]))
  }

  /** The length of the whitespace prefix of `s`. */
  function LeadingSpaces(s: string): (k: nat)
    ensures k <= |s|
    ensures forall i :: 0 <= i < k ==> IsSpace(s[i])
    ensures k < |s| ==> !IsSpace(s[k])
  {
    if s == [] || !IsSpace(s[0]) then 0 else 1 + LeadingSpaces(s[1..])
  }

  /** The index where the whitespace suffix of `s` starts. */
  function TrailingStart(s: string): (k: nat)
    ensures k <= |s|
    ensures forall i :: k <= i < |s| ==> IsSpace(s[i])
    ensures 0 < k ==> !IsSpace(s[k - 1])
  {
    if s == [] || !IsSpace(s[|s| - 1]) then |s| else TrailingStart(s[..|s| - 1])
  }

  function Strip(s: string): (r: string)
    ensures Trimmed(r)
    ensures |r| <= |s|
    ensures r == [] <==> AllSpace(s)
  {
    var a := LeadingSpaces(s);
    var b := TrailingStart(s);
    if a < b then s[a..b] else []
  }

  /** `strip()` is characterised by its result: whatever whitespace surrounds
      a trimmed string `t`, stripping gives back exactly `t`. */
  lemma {:induction false} StripPadded(front: string, t: string, back: string)
    requires AllSpace(front) && AllSpace(back)
    requires Trimmed(t)
    ensures Strip(front + t + back) == t
  {
    var s := front + t + back;
    var a := LeadingSpaces(s);
    var b := TrailingStart(s);
    if t == [] {
      assert AllSpace(s) by {
        forall i | 0 <= i < |s| ensures IsSpace(s[i]) {
          if i < |front| { assert s[i] == front[i]; } else { assert s[i] == back[i - |front|]; }
        }
      }
    } else {
      assert s[|front|] == t[0];
      assert s[|front| + |t| - 1] == t[|t| - 1];
      assert a == |front|;
      assert b == |front| + |t|;
      assert s[a..b] == t;
    }
  }

  lemma StripIdempotent(s: string)
    ensures Strip(Strip(s)) == Strip(s)
  {
    var r := Strip(s);
    StripPadded([], r, []);
    assert [] + r + [] == r;
  }
}
