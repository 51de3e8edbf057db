/** Canonical `sha256:` digests. */
module Digests {
  import opened Wrappers
  import opened Text

  const PREFIX := "sha256:"

  predicate IsHex(c: char) {
    '0' <= c <= '9' || 'a' <= c <= 'f'
  }

  predicate AllHex(s: string) {
    forall i :: 0 <= i < |s| ==> IsHex(s[i])
  }

  function HexOnly(s: string): (h: string)
    ensures AllHex(h)
  {
    if s == [] then []
    else (if IsHex(s[0]) then [s[0]] else []) + HexOnly(s[1..])
  }

  /** At most 64 lowercase hex digits, in order, of anything. */
  function HexPart(s: string): (h: string)
    ensures AllHex(h) && |h| <= 64
  {
    var h := HexOnly(Lower(s));
    if |h| > 64 then h[..64] else h
  }

  function FromHex(s: string): Option<string> {
    if |HexPart(s)| < 12 then None else Some(PREFIX + HexPart(s))
  }

  /** `_normalize_sha256_digest`: the canonical form, or nothing. */
  function Normalize(s: string): Option<string> {
    var t := Trim(s);
    if PREFIX <= t then FromHex(t[7..]) else None
  }

  /** The canonical form: the prefix and 12 to 64 lowercase hex digits. */
  predicate Canonical(d: string) {
    && PREFIX <= d
    && 12 <= |d| - 7 <= 64
    && AllHex(d[7..])
  }

  lemma {:induction false} HexOnlyFixed(s: string)
    requires AllHex(s)
    ensures HexOnly(s) == s
  {
    if s != [] {
      HexOnlyFixed(s[1..]);
    }
  }

  lemma LowerHexFixed(s: string)
    requires AllHex(s)
    ensures Lower(s) == s
  {
    LowerAt(s);
  }

  /** Whatever is accepted comes out as the prefix and 12 to 64 digits from 0 to 9 and a to f. */
  lemma NormalizeIsCanonical(s: string)
    ensures Normalize(s).Some? ==> Canonical(Normalize(s).value)
    ensures Normalize(s).Some? ==>
              var d := Normalize(s).value;
              && "sha256:" <= d && 7 + 12 <= |d| <= 7 + 64
              && forall i :: 7 <= i < |d| ==> '0' <= d[i] <= '9' || 'a' <= d[i] <= 'f'
  {
    if Normalize(s).Some? {
      var d := Normalize(s).value;
      assert d[7..] == HexPart(Trim(s)[7..]);
      forall i | 7 <= i < |d|
        ensures '0' <= d[i] <= '9' || 'a' <= d[i] <= 'f'
      {
        assert d[i] == d[7..][i - 7];
      }
    }
  }

  lemma HexPartFixed(h: string)
    requires AllHex(h) && |h| <= 64
    ensures HexPart(h) == h
  {
    LowerHexFixed(h);
    HexOnlyFixed(h);
  }

  lemma CanonicalIsFixed(h: string)
    requires AllHex(h) && 12 <= |h| <= 64
    ensures Normalize(PREFIX + h) == Some(PREFIX + h)
  {
    var d := PREFIX + h;
    assert d[0] == 's' && d[|d| - 1] == h[|h| - 1];
    TrimFixed(d);
    assert d[7..] == h;
    HexPartFixed(h);
  }

  /** What is read off the digits of a digest in either case: all of them up to 64, in lower case. */
  lemma DigitsRead(h: string)
    requires forall i :: 0 <= i < |h| ==> '0' <= h[i] <= '9' || 'a' <= h[i] <= 'f' || 'A' <= h[i] <= 'F'
    ensures Normalize("sha256:" + h) == if |h| < 12 then None else Some("sha256:" + Lower(if |h| > 64 then h[..64] else h))
  {
    var d := PREFIX + h;
    LowerAt(h);
    assert d == "sha256:" + h && d[0] == 's' && (h != "" ==> d[|d| - 1] == h[|h| - 1]);
    TrimFixed(d);
    assert d[7..] == h;
    HexOnlyFixed(Lower(h));
    if |h| > 64 {
      LowerAt(h[..64]);
      assert Lower(h)[..64] == Lower(h[..64]);
    }
  }

  /** A digest is canonical exactly when normalizing it changes nothing. */
  lemma CanonicalIffFixed(d: string)
    ensures Canonical(d) <==> Normalize(d) == Some(d)
  {
    NormalizeIsCanonical(d);
    if Canonical(d) {
      assert d == PREFIX + d[7..];
      CanonicalIsFixed(d[7..]);
    }
  }
}
