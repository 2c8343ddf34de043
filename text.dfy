/** The two JavaScript string operations the job filter relies on:
    `String.prototype.toLowerCase`, restricted to ASCII letters, and
    `String.prototype.includes`, the substring test. */
module Text {

  predicate IsUpper(c: char) {
    'A' <= c <= 'Z'
  }

  /** ASCII lower-casing of one character; every other character is kept. */
  function LowerChar(c: char): char {
    if IsUpper(c) then (c as int + 32) as char else c
  }

  /** `s.toLowerCase()`, character by character. */
  function ToLower(s: string): (r: string)
    ensures |r| == |s|
    ensures forall i :: 0 <= i < |s| ==> r[i] == LowerChar(s[i])
    ensures forall i :: 0 <= i < |r| ==> !IsUpper(r[i])
  {
    if s == [] then [] else [LowerChar(s[0])] + ToLower(s[1..])
  }

  predicate StartsWith(s: string, prefix: string) {
    |prefix| <= |s| && s[..|prefix|] == prefix
  }

  /** `s.includes(sub)`: tries every start position from the left. */
  function Includes(s: string, sub: string): (found: bool)
    ensures sub == [] ==> found
    ensures found ==> |sub| <= |s|
    decreases |s|
  {
    StartsWith(s, sub) || (s != [] && Includes(s[1..], sub))
  }

  /** `sub` occurs in `s` starting at position `i`. */
  predicate OccursAt(s: string, sub: string, i: nat) {
    i + |sub| <= |s| && s[i..i + |sub|] == sub
  }

  /** The empty string is a substring of every string. */
  lemma IncludesEmpty(s: string)
    ensures Includes(s, [])
  {
  }

  /** `Includes` is exactly "occurs at some position". */
  lemma {:induction false} IncludesIff(s: string, sub: string)
    ensures Includes(s, sub) <==> exists i: nat :: OccursAt(s, sub, i)
    decreases |s|
  {
    if Includes(s, sub) {
      if StartsWith(s, sub) {
        assert OccursAt(s, sub, 0);
      } else {
        IncludesIff(s[1..], sub);
        var i: nat :| OccursAt(s[1..], sub, i);
        assert s[1..][i..i + |sub|] == s[i + 1..i + 1 + |sub|];
        assert OccursAt(s, sub, i + 1);
      }
    }
    if exists i: nat :: OccursAt(s, sub, i) {
      var i: nat :| OccursAt(s, sub, i);
      if i == 0 {
        assert StartsWith(s, sub);
      } else {
        assert s[1..][i - 1..i - 1 + |sub|] == s[i..i + |sub|];
        assert OccursAt(s[1..], sub, i - 1);
        IncludesIff(s[1..], sub);
      }
    }
  }

  /** `q` matches `s` at position `i` when characters are compared
      without regard to ASCII case. */
  predicate AgreesAt(s: string, q: string, i: nat) {
    i + |q| <= |s| && forall k :: 0 <= k < |q| ==> LowerChar(s[i + k]) == LowerChar(q[k])
  }

  /** Case-insensitive substring test, stated directly on positions. */
  ghost predicate ContainsIgnoringCase(s: string, q: string) {
    exists i: nat :: AgreesAt(s, q, i)
  }

  /** `s.toLowerCase().includes(q.toLowerCase())` is the case-insensitive
      substring test. */
  lemma LowerIncludesIff(s: string, q: string)
    ensures Includes(ToLower(s), ToLower(q)) <==> ContainsIgnoringCase(s, q)
  {
    var ls, lq := ToLower(s), ToLower(q);
    IncludesIff(ls, lq);
    forall i: nat
      ensures OccursAt(ls, lq, i) <==> AgreesAt(s, q, i)
    {
      if i + |q| <= |s| {
        if AgreesAt(s, q, i) {
          assert ls[i..i + |lq|] == lq by {
            forall k | 0 <= k < |lq| ensures ls[i..i + |lq|][k] == lq[k] {
              assert ls[i + k] == LowerChar(s[i + k]);
            }
          }
        }
        if OccursAt(ls, lq, i) {
          forall k | 0 <= k < |q| ensures LowerChar(s[i + k]) == LowerChar(q[k]) {
            assert ls[i..i + |lq|][k] == lq[k];
          }
        }
      }
    }
    if ContainsIgnoringCase(s, q) {
      var i: nat :| AgreesAt(s, q, i);
      assert OccursAt(ls, lq, i);
    }
    if Includes(ls, lq) {
      var i: nat :| OccursAt(ls, lq, i);
      assert AgreesAt(s, q, i);
    }
  }

  /** An empty query matches every string. */
  lemma EmptyQueryMatches(s: string)
    ensures ContainsIgnoringCase(s, [])
  {
    assert AgreesAt(s, [], 0);
  }
}
