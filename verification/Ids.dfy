/** Sandbox and project identifiers: base-36 encoding, prefixes, parsing. */
module Ids {
  import opened Wrappers

  type SandboxId = string
  type ProjectId = string

  const SANDBOX_PREFIX: string := "sandbox-"
  const PROJECT_PREFIX: string := "project-"
  const TWO_TO_63: int := 0x8000_0000_0000_0000
  const MAX_ID_LENGTH: nat := 20

  // ---------------------------------------------------------------- parsing

  predicate HasPrefix(s: string, prefix: string) {
    prefix <= s
  }

  /** strings.TrimPrefix: one occurrence at most is removed. */
  function TrimPrefix(s: string, prefix: string): string {
    if HasPrefix(s, prefix) then s[|prefix|..] else s
  }

  function NewId(id: string, prefix: string): Option<string> {
    var clean := TrimPrefix(id, prefix);
    if clean == "" then None else Some(clean)
  }

  /** NewSandboxID; None stands for ErrEmptyID. */
  function NewSandboxId(id: string): Option<SandboxId> {
    NewId(id, SANDBOX_PREFIX)
  }

  /** NewProjectID; None stands for ErrEmptyID. */
  function NewProjectId(id: string): Option<ProjectId> {
    NewId(id, PROJECT_PREFIX)
  }

  /** NewProjectIDWithoutPrefix, the entry point used by the project API. */
  function NewProjectIdWithoutPrefix(id: string): Option<ProjectId> {
    NewProjectId(PROJECT_PREFIX + id)
  }

  /** Parsing leaves the project identifier alone. */
  predicate IsRaw(p: ProjectId) {
    NewProjectId(p) == Some(p)
  }

  function WithPrefix(id: string, prefix: string): string {
    if id == "" then "" else prefix + id
  }

  /** Parsing leaves an identifier alone exactly when it is nonempty and does not start with the prefix. */
  lemma ParseIsIdentity(id: string, prefix: string)
    requires prefix != ""
    ensures NewId(id, prefix) == Some(id) <==> id != "" && !HasPrefix(id, prefix)
  {
    if HasPrefix(id, prefix) {
      assert |TrimPrefix(id, prefix)| < |id|;
    }
  }

  /** Only the empty identifier and the bare prefix do not parse. */
  lemma Unparsable(id: string, prefix: string)
    ensures NewId(id, prefix).None? <==> id == "" || id == prefix
  {
    if HasPrefix(id, prefix) {
      assert id == prefix + id[|prefix|..];
    }
  }

  /** Parsing undoes WithPrefix for every nonempty identifier, whatever it contains. */
  lemma ParseInvertsWithPrefix(id: string, prefix: string)
    requires id != ""
    ensures NewId(WithPrefix(id, prefix), prefix) == Some(id)
  {
    assert (prefix + id)[|prefix|..] == id;
  }

  /** The project API accepts every nonempty identifier, and takes it unchanged. */
  lemma ApiProjectIdIsRaw(id: string)
    ensures NewProjectIdWithoutPrefix(id) == if id == "" then None else Some(id)
  {
    assert (PROJECT_PREFIX + id)[|PROJECT_PREFIX|..] == id;
  }

  // ---------------------------------------------------------------- base 36

  /** A nonempty string over the base-36 alphabet: the shape of every generated sandbox identifier. */
  predicate IsBase36(s: string) {
    s != "" && forall i :: 0 <= i < |s| ==> IsDigit(s[i])
  }

  predicate IsDigit(c: char) {
    '0' <= c <= '9' || 'a' <= c <= 'z'
  }

  lemma PrefixHasDash(s: string)
    requires HasPrefix(s, SANDBOX_PREFIX)
    ensures !IsBase36(s)
  {
    assert s[7] == SANDBOX_PREFIX[7] == '-';
  }

  /** The alphabet has no '-', so a base-36 identifier parses to itself, with or without its prefix. */
  lemma Base36Parses(s: string)
    requires IsBase36(s)
    ensures NewSandboxId(s) == Some(s)
    ensures NewSandboxId(WithPrefix(s, SANDBOX_PREFIX)) == Some(s)
  {
    ParseInvertsWithPrefix(s, SANDBOX_PREFIX);
    if HasPrefix(s, SANDBOX_PREFIX) {
      PrefixHasDash(s);
    }
    ParseIsIdentity(s, SANDBOX_PREFIX);
  }

  /** The encoder's alphabet: '0'..'9' then 'a'..'z'. */
  function DigitChar(d: nat): char
    requires d < 36
  {
    if d < 10 then '0' + d as char else 'a' + (d - 10) as char
  }

  /** The digits of n, most significant first, without leading zeros ("" for zero). */
  function Digits(n: nat): string {
    if n == 0 then "" else Digits(n / 36) + [DigitChar(n % 36)]
  }

  /** What encodeBase36 returns; its loop does not run for a negative argument. */
  function Base36(n: int): string {
    if n < 0 then "" else if n == 0 then "0" else Digits(n)
  }

  function DigitValue(c: char): nat {
    if '0' <= c <= '9' then (c - '0') as nat
    else if 'a' <= c <= 'z' then (c - 'a') as nat + 10
    else 0
  }

  /** Positional value of a base-36 numeral. */
  function Decode(s: string): nat {
    if s == "" then 0 else Decode(s[..|s| - 1]) * 36 + DigitValue(s[|s| - 1])
  }

  lemma DigitValueInverts(d: nat)
    requires d < 36
    ensures IsDigit(DigitChar(d)) && DigitValue(DigitChar(d)) == d
  {
  }

  lemma {:induction false} DecodeDigits(n: nat)
    ensures Decode(Digits(n)) == n
    ensures forall i :: 0 <= i < |Digits(n)| ==> IsDigit(Digits(n)[i])
    ensures n > 0 ==> Digits(n) != "" && Digits(n)[0] != '0'
  {
    if n > 0 {
      DecodeDigits(n / 36);
      DigitValueInverts(n % 36);
      var s := Digits(n);
      assert s[..|s| - 1] == Digits(n / 36);
      if n < 36 {
        assert Digits(n / 36) == "";
        DigitValueInverts(n);
        DigitValueInverts(0);
      }
    }
  }

  function Pow36(k: nat): nat {
    if k == 0 then 1 else 36 * Pow36(k - 1)
  }

  lemma {:induction false} DigitsLength(n: nat, k: nat)
    requires n < Pow36(k)
    ensures |Digits(n)| <= k
  {
    if n > 0 {
      DigitsLength(n / 36, k - 1);
    }
  }

  lemma ThirteenDigits()
    ensures TWO_TO_63 <= Pow36(13)
  {
    assert Pow36(4) == 1679616;
    assert Pow36(8) == 36 * 36 * 36 * 36 * Pow36(4);
    assert Pow36(12) == 36 * 36 * 36 * 36 * Pow36(8);
    assert Pow36(13) == 36 * Pow36(12);
  }

  /** Round trip and shape of the encoding over the whole non-negative int64 range. */
  lemma Base36RoundTrip(n: int)
    requires 0 <= n < TWO_TO_63
    ensures IsBase36(Base36(n))
    ensures Decode(Base36(n)) == n
    ensures |Base36(n)| <= 13
    ensures n != 0 ==> Base36(n)[0] != '0'
  {
    DecodeDigits(n);
    ThirteenDigits();
    DigitsLength(n, 13);
    if n == 0 {
      DigitValueInverts(0);
      assert Decode("0"[..0]) == 0;
    }
  }

  lemma Base36Injective(m: int, n: int)
    requires 0 <= m < TWO_TO_63 && 0 <= n < TWO_TO_63
    requires Base36(m) == Base36(n)
    ensures m == n
  {
    Base36RoundTrip(m);
    Base36RoundTrip(n);
  }

  function Reversed(s: string): string {
    if s == "" then "" else Reversed(s[1..]) + [s[0]]
  }

  lemma {:induction false} ReversedAt(s: string, k: nat)
    requires k < |s|
    ensures |Reversed(s)| == |s| && Reversed(s)[k] == s[|s| - 1 - k]
  {
    if |s| > 1 {
      ReversedAt(s[1..], if k < |s| - 1 then k else 0);
    }
  }

  lemma {:induction false} ReversedAppend(s: string, c: char)
    ensures Reversed(s + [c]) == [c] + Reversed(s)
  {
    if s != "" {
      assert (s + [c])[1..] == s[1..] + [c];
      ReversedAppend(s[1..], c);
    }
  }

  /** The in-place swap loop over the rune slice. */
  method ReverseRunes(runes: array<char>)
    modifies runes
    ensures runes[..] == Reversed(old(runes[..]))
  {
    ghost var was := runes[..];
    var i, j := 0, runes.Length - 1;
    while i < j
      invariant 0 <= i <= j + 1 <= runes.Length && i + j == runes.Length - 1
      invariant forall k :: 0 <= k < i ==> runes[k] == was[runes.Length - 1 - k]
      invariant forall k :: j < k < runes.Length ==> runes[k] == was[runes.Length - 1 - k]
      invariant forall k :: i <= k <= j ==> runes[k] == was[k]
    {
      runes[i], runes[j] := runes[j], runes[i];
      i, j := i + 1, j - 1;
    }
    assert runes.Length == 0 ==> was == [];
    forall k | 0 <= k < |was|
      ensures |Reversed(was)| == |was| && runes[..][k] == Reversed(was)[k]
    {
      ReversedAt(was, k);
    }
  }

  /** encodeBase36, for every int64 argument. */
  method EncodeBase36(arg: int) returns (s: string)
    requires -TWO_TO_63 <= arg < TWO_TO_63
    ensures s == Base36(arg) && (arg < 0 ==> s == "")
  {
    if arg == 0 {
      return "0";
    }
    var n, builder := arg, "";
    while n > 0
      invariant arg < 0 ==> n == arg && builder == ""
      invariant arg > 0 ==> n >= 0 && Digits(arg) == Digits(n) + Reversed(builder)
    {
      ReversedAppend(builder, DigitChar(n % 36));
      assert Digits(n) + Reversed(builder) == Digits(n / 36) + ([DigitChar(n % 36)] + Reversed(builder));
      builder := builder + [DigitChar(n % 36)];
      n := n / 36;
    }
    var runes := new char[|builder|](i requires 0 <= i < |builder| => builder[i]);
    assert runes[..] == builder;
    ReverseRunes(runes);
    s := runes[..];
  }

  /** Two's-complement wrap-around of an int64 sum. */
  function WrapInt64(n: int): (r: int)
    ensures -TWO_TO_63 <= r < TWO_TO_63
    ensures -TWO_TO_63 <= n < TWO_TO_63 ==> r == n
  {
    (n + TWO_TO_63) % (2 * TWO_TO_63) - TWO_TO_63
  }

  /** The cut that keeps pod names short. */
  function Shorten(id: string): string {
    if |id| > MAX_ID_LENGTH then id[..MAX_ID_LENGTH] else id
  }

  /** GenerateSandboxID with the clock reading and the random byte as parameters. */
  method GenerateSandboxId(unixNano: int, randomByte: int) returns (id: SandboxId)
    requires -TWO_TO_63 <= unixNano < TWO_TO_63 && 0 <= randomByte < 256
    ensures id == Base36(WrapInt64(unixNano + randomByte))
    ensures 0 <= unixNano + randomByte < TWO_TO_63 ==>
              IsBase36(id) && Decode(id) == unixNano + randomByte
    ensures unixNano + randomByte < 0 || TWO_TO_63 <= unixNano + randomByte ==> id == ""
  {
    var n := WrapInt64(unixNano + randomByte);
    id := EncodeBase36(n);
    if 0 <= n {
      Base36RoundTrip(n);
    }
    id := Shorten(id);
  }
}
