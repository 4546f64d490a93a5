/** The string operations the override pass relies on: ASCII lower-casing and substring search. */
module Text {

  /** Lower-cases one ASCII letter; every other character is left alone. */
  function LowerChar(c: char): char {
    if 'A' <= c <= 'Z' then (c as int + 32) as char else c
  }

  /** `String.prototype.toLowerCase`, restricted to the ASCII letters. */
  function ToLower(s: string): (r: string)
    ensures |r| == |s|
    ensures forall i :: 0 <= i < |r| ==> !('A' <= r[i] <= 'Z')
    ensures forall i :: 0 <= i < |s| && 'A' <= s[i] <= 'Z' ==> r[i] == (s[i] as int + 32) as char
    ensures forall i :: 0 <= i < |s| && !('A' <= s[i] <= 'Z') ==> r[i] == s[i]
  {
    seq(|s|, i requires 0 <= i < |s| => LowerChar(s[i]))
  }

  /** `sub` appears in `s` starting at index `i`. */
  ghost predicate OccursAt(sub: string, s: string, i: int) {
    0 <= i && i + |sub| <= |s| && s[i..i + |sub|] == sub
  }

  /** The specification of substring search: `sub` appears somewhere in `s`. */
  ghost predicate Occurs(sub: string, s: string) {
    exists i :: OccursAt(sub, s, i)
  }

  /** `String.prototype.includes`: scans `s` from the left for `sub`. */
  function Includes(s: string, sub: string): bool
    decreases |s|
  {
    if |s| < |sub| then false
    else if s[..|sub|] == sub then true
    else Includes(s[1..], sub)
  }

  /** An occurrence in the tail of `s` is an occurrence in `s`, one position later. */
  lemma ShiftOccurrence(s: string, sub: string, i: int)
    requires |s| > 0 && OccursAt(sub, s[1..], i)
    ensures OccursAt(sub, s, i + 1)
  {
    assert s[i + 1..i + 1 + |sub|] == s[1..][i..i + |sub|];
  }

  /** An occurrence in `s` past its first position is an occurrence in the tail, one position earlier. */
  lemma UnshiftOccurrence(s: string, sub: string, i: int)
    requires OccursAt(sub, s, i) && i > 0
    ensures OccursAt(sub, s[1..], i - 1)
  {
    assert s[1..][i - 1..i - 1 + |sub|] == s[i..i + |sub|];
  }

  /** The scan finds `sub` exactly when it occurs in `s`. */
  lemma {:induction false} IncludesIsOccurs(s: string, sub: string)
    ensures Includes(s, sub) <==> Occurs(sub, s)
    decreases |s|
  {
    if |s| < |sub| {
      assert forall i :: !OccursAt(sub, s, i);
    } else if s[..|sub|] == sub {
      assert OccursAt(sub, s, 0);
    } else {
      IncludesIsOccurs(s[1..], sub);
      forall i | OccursAt(sub, s[1..], i) ensures OccursAt(sub, s, i + 1) {
        ShiftOccurrence(s, sub, i);
      }
      forall i | OccursAt(sub, s, i) ensures OccursAt(sub, s[1..], i - 1) {
        assert i != 0;
        UnshiftOccurrence(s, sub, i);
      }
    }
  }

  /** A non-empty needle whose first character never appears in `s` does not occur in `s`. */
  lemma FirstCharAbsent(s: string, sub: string)
    requires |sub| > 0
    requires forall i :: 0 <= i < |s| ==> s[i] != sub[0]
    ensures !Includes(s, sub)
  {
    IncludesIsOccurs(s, sub);
    forall i | 0 <= i && i + |sub| <= |s| ensures !OccursAt(sub, s, i) {
      assert s[i..i + |sub|][0] == s[i];
    }
  }

  /** Any string contains itself. */
  lemma IncludesSelf(s: string)
    ensures Includes(s, s)
  {
    assert s[..|s|] == s;
  }

  /** A prefix of `s` occurs in `s`. */
  lemma IncludesPrefix(s: string, sub: string)
    requires |sub| <= |s| && s[..|sub|] == sub
    ensures Includes(s, sub)
  {
  }
}
