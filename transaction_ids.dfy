/**
 * Transaction ids: the text of a random UUID with its hyphens removed.
 * The random UUID itself is an input of the model.
 */
module TransactionIds {

  predicate IsHexDigit(c: char) {
    '0' <= c <= '9' || 'a' <= c <= 'f'
  }

  /** Positions of the four hyphens in the canonical 8-4-4-4-12 UUID text. */
  predicate IsHyphenPosition(i: int) {
    i == 8 || i == 13 || i == 18 || i == 23
  }

  /** The canonical text of a UUID: 36 characters, lowercase hex digits in groups 8-4-4-4-12. */
  predicate IsUuidText(s: string) {
    |s| == 36 &&
    forall i :: 0 <= i < |s| ==> if IsHyphenPosition(i) then s[i] == '-' else IsHexDigit(s[i])
  }

  /** A well-formed transaction id: 32 lowercase hex digits and nothing else. */
  predicate IsTransactionId(s: string) {
    |s| == 32 && forall i :: 0 <= i < |s| ==> IsHexDigit(s[i])
  }

  /** `replace("-", "")`: every hyphen removed, every other character kept in order. */
  function StripHyphens(s: string): (r: string)
    ensures '-' !in r
    ensures |r| <= |s|
    ensures forall c :: c in r ==> c in s
  {
    if s == [] then []
    else (if s[0] == '-' then [] else [s[0]]) + StripHyphens(s[1..])
  }

  /**
   * Every character other than a hyphen is kept, as often as it occurs;
   * with `StripHyphensAppend`, it is kept in order too.
   */
  lemma {:induction false} StripHyphensKeepsOthers(s: string)
    ensures multiset(StripHyphens(s)) == multiset(s)['-' := 0]
  {
    if s != [] {
      assert s == [s[0]] + s[1..];
      StripHyphensKeepsOthers(s[1..]);
    }
  }

  /** Stripping distributes over concatenation, so the kept characters keep their order. */
  lemma {:induction false} StripHyphensAppend(a: string, b: string)
    ensures StripHyphens(a + b) == StripHyphens(a) + StripHyphens(b)
  {
    if a == [] {
      assert a + b == b;
    } else {
      assert (a + b)[0] == a[0];
      assert (a + b)[1..] == a[1..] + b;
      StripHyphensAppend(a[1..], b);
    }
  }

  /** How many hyphens the canonical UUID text has before position `k`. */
  function HyphensBefore(k: int): int {
    (if k > 8 then 1 else 0) + (if k > 13 then 1 else 0) +
    (if k > 18 then 1 else 0) + (if k > 23 then 1 else 0)
  }

  lemma {:induction false} StripUuidPrefix(u: string, k: nat)
    requires IsUuidText(u) && k <= |u|
    ensures |StripHyphens(u[..k])| == k - HyphensBefore(k)
    ensures forall i :: 0 <= i < |StripHyphens(u[..k])| ==> IsHexDigit(StripHyphens(u[..k])[i])
  {
    if k > 0 {
      StripUuidPrefix(u, k - 1);
      assert u[..k] == u[..k - 1] + [u[k - 1]];
      StripHyphensAppend(u[..k - 1], [u[k - 1]]);
      assert [u[k - 1]][1..] == [];
    }
  }

  /** Removing the hyphens of a UUID's text leaves a well-formed transaction id. */
  lemma UuidGivesTransactionId(u: string)
    requires IsUuidText(u)
    ensures IsTransactionId(StripHyphens(u))
  {
    StripUuidPrefix(u, |u|);
    assert u[..|u|] == u;
  }
}
