/**
 * The mobile authorization-code table (`MobileUserAuth`): one row per user
 * with a nullable, unique code of at most 32 characters, and the issuing
 * operation that keeps an existing code and otherwise mints UUID4 hex codes
 * until one is accepted by the uniqueness constraint.
 *
 * The random source is an oracle: the sequence of 128-bit numbers that
 * successive calls of `uuid.uuid4()` would yield.
 */
module AuthCodes {
  import opened Common

  type UserId = nat

  /** `max_length` of the `authorization_code` column. */
  const CodeMaxLength: nat := 32

  function Pow16(k: nat): (r: nat)
    ensures r > 0
  {
    if k == 0 then 1 else 16 * Pow16(k - 1)
  }

  predicate IsLowerHexDigit(c: char) {
    '0' <= c <= '9' || 'a' <= c <= 'f'
  }

  predicate IsLowerHex(s: string) {
    forall i :: 0 <= i < |s| ==> IsLowerHexDigit(s[i])
  }

  function HexDigit(d: nat): (c: char)
    requires d < 16
    ensures IsLowerHexDigit(c)
  {
    if d < 10 then ('0' as int + d) as char else ('a' as int + d - 10) as char
  }

  function DigitValue(c: char): nat {
    if '0' <= c <= '9' then c as int - '0' as int
    else if 'a' <= c <= 'f' then c as int - 'a' as int + 10
    else 0
  }

  /** The `width` lowercase hex digits of `n`, most significant first: what
      `UUID.hex` renders for a 128-bit number when `width` is 32. */
  function Hex(n: nat, width: nat): (r: string)
    ensures |r| == width && IsLowerHex(r)
  {
    if width == 0 then [] else Hex(n / 16, width - 1) + [HexDigit(n % 16)]
  }

  /** The number a string of hex digits denotes. */
  function ParseHex(s: string): nat {
    if s == [] then 0 else ParseHex(s[..|s| - 1]) * 16 + DigitValue(s[|s| - 1])
  }

  /** Reading the digits back gives the number: hex rendering loses nothing. */
  lemma {:induction false} ParseHexOfHex(n: nat, width: nat)
    requires n < Pow16(width)
    ensures ParseHex(Hex(n, width)) == n
  {
    if width > 0 {
      var r := Hex(n, width);
      assert r[..|r| - 1] == Hex(n / 16, width - 1);
      assert n / 16 < Pow16(width - 1);
      ParseHexOfHex(n / 16, width - 1);
    }
  }

  /** Nibble `k` of `n`, counting from the least significant one: bits
      `4k .. 4k+3`. */
  function Nibble(n: nat, k: nat): (d: nat)
    ensures d < 16
  {
    if k == 0 then n % 16 else Nibble(n / 16, k - 1)
  }

  /** Digit `i` (from the left) of the hex rendering is the `width - 1 - i`-th
      nibble of the number. */
  lemma {:induction false} HexAt(n: nat, width: nat, i: nat)
    requires i < width
    ensures Hex(n, width)[i] == HexDigit(Nibble(n, width - 1 - i))
  {
    if i < width - 1 {
      HexAt(n / 16, width - 1, i);
    }
  }

  /** A version-4 (random) UUID in the sense of section 4.4 of RFC 4122: the
      version nibble (bits 76..79 of the 128-bit number) is 4 and the two
      variant bits (bits 62..63) are `10`. */
  predicate IsUuid4(n: nat) {
    && n < Pow16(32)
    && Nibble(n, 19) == 4
    && Nibble(n, 15) / 4 == 2
  }

  /** `_generate_authorization_code`: the hex form of a UUID. */
  function GenerateAuthorizationCode(uuid: nat): (code: string)
    requires uuid < Pow16(32)
    ensures |code| == CodeMaxLength && IsLowerHex(code)
  {
    Hex(uuid, 32)
  }

  /** A generated code fits the column exactly, is lowercase hex, and shows the
      UUID4 version digit `4` and a variant digit among `8`, `9`, `a`, `b`. */
  lemma GeneratedCodeShape(uuid: nat)
    requires IsUuid4(uuid)
    ensures var code := GenerateAuthorizationCode(uuid);
      && |code| == CodeMaxLength && IsLowerHex(code)
      && code[12] == '4'
      && code[16] in {'8', '9', 'a', 'b'}
  {
    HexAt(uuid, 32, 12);
    HexAt(uuid, 32, 16);
  }

  /** Distinct UUIDs give distinct codes. */
  lemma GeneratedCodesInjective(u1: nat, u2: nat)
    requires u1 < Pow16(32) && u2 < Pow16(32)
    requires GenerateAuthorizationCode(u1) == GenerateAuthorizationCode(u2)
    ensures u1 == u2
  {
    ParseHexOfHex(u1, 32);
    ParseHexOfHex(u2, 32);
  }

  type Rows = map<UserId, Option<string>>

  /** Python truthiness of the stored code: null and `""` count as absent. */
  predicate HasCode(c: Option<string>) {
    c.Some? && c.value != ""
  }

  /** The database constraint `unique=True`: no two rows hold the same non-null
      code (null is never equal to null in SQL). */
  predicate CodesUnique(rows: Rows) {
    forall u, v :: u in rows && v in rows && u != v && rows[u].Some? ==> rows[u] != rows[v]
  }

  /** A row other than `u`'s already holds `code`: saving it on `u`'s row raises
      `IntegrityError`. */
  predicate TakenByOther(rows: Rows, u: UserId, code: string) {
    exists v :: v in rows && v != u && rows[v] == Some(code)
  }

  predicate AllBounded(uuids: seq<nat>) {
    forall i :: 0 <= i < |uuids| ==> uuids[i] < Pow16(32)
  }

  /** The outcome of `set_authorization_code`: the rows afterwards and the code
      returned. `code` is None only when the oracle runs out of candidates
      before one is accepted. */
  datatype Issued = Issued(rows: Rows, code: Option<string>)

  /** `set_authorization_code` on `u`'s row, consuming candidate UUIDs in order. */
  function Issue(rows: Rows, u: UserId, uuids: seq<nat>): (r: Issued)
    requires u in rows && AllBounded(uuids)
    ensures r.rows.Keys == rows.Keys
    ensures forall v :: v in rows && v != u ==> r.rows[v] == rows[v]
    ensures r.code.Some? ==> r.rows[u] == r.code && HasCode(r.code)
    ensures r.code.None? ==> r.rows == rows
    ensures HasCode(rows[u]) ==> r == Issued(rows, rows[u])
    ensures r.code.Some? && !HasCode(rows[u]) ==>
      && !TakenByOther(rows, u, r.code.value)
      && exists i :: 0 <= i < |uuids| && r.code.value == GenerateAuthorizationCode(uuids[i])
    ensures CodesUnique(rows) ==> CodesUnique(r.rows)
    decreases |uuids|
  {
    if HasCode(rows[u]) then Issued(rows, rows[u])
    else if uuids == [] then Issued(rows, None)
    else
      var token := GenerateAuthorizationCode(uuids[0]);
      if TakenByOther(rows, u, token) then
        var r := Issue(rows, u, uuids[1..]);
        assert r.code.Some? ==> exists i :: 0 <= i < |uuids| && r.code.value == GenerateAuthorizationCode(uuids[i]) by {
          if r.code.Some? {
            var j :| 0 <= j < |uuids| - 1 && r.code.value == GenerateAuthorizationCode(uuids[1..][j]);
            assert uuids[1..][j] == uuids[j + 1];
          }
        }
        r
      else
        Issued(rows[u := Some(token)], Some(token))
  }

  /** The candidates are tried in order: when candidate `i` is the first
      one no other row holds, it is the code issued. */
  lemma {:induction false} IssueTakesFirstFree(rows: Rows, u: UserId, uuids: seq<nat>, i: nat)
    requires u in rows && AllBounded(uuids) && !HasCode(rows[u])
    requires i < |uuids| && !TakenByOther(rows, u, GenerateAuthorizationCode(uuids[i]))
    requires forall j :: 0 <= j < i ==> TakenByOther(rows, u, GenerateAuthorizationCode(uuids[j]))
    ensures Issue(rows, u, uuids) == Issued(rows[u := Some(GenerateAuthorizationCode(uuids[i]))],
                                            Some(GenerateAuthorizationCode(uuids[i])))
    decreases i
  {
    if i > 0 {
      var tail := uuids[1..];
      assert TakenByOther(rows, u, GenerateAuthorizationCode(uuids[0]));
      forall j | 0 <= j < i - 1 ensures TakenByOther(rows, u, GenerateAuthorizationCode(tail[j])) {
        assert tail[j] == uuids[j + 1];
      }
      assert tail[i - 1] == uuids[i];
      IssueTakesFirstFree(rows, u, tail, i - 1);
    }
  }

  /** No code is issued only when every candidate was already held by another
      row. */
  lemma {:induction false} IssueFailsOnlyIfAllTaken(rows: Rows, u: UserId, uuids: seq<nat>)
    requires u in rows && AllBounded(uuids) && !HasCode(rows[u])
    requires Issue(rows, u, uuids).code.None?
    ensures forall j :: 0 <= j < |uuids| ==> TakenByOther(rows, u, GenerateAuthorizationCode(uuids[j]))
    decreases |uuids|
  {
    if uuids != [] {
      var tail := uuids[1..];
      assert TakenByOther(rows, u, GenerateAuthorizationCode(uuids[0]));
      assert Issue(rows, u, uuids) == Issue(rows, u, tail);
      IssueFailsOnlyIfAllTaken(rows, u, tail);
      forall k | 0 <= k < |uuids| ensures TakenByOther(rows, u, GenerateAuthorizationCode(uuids[k])) {
        if k > 0 { assert uuids[k] == tail[k - 1]; }
      }
    }
  }

  /** `set_authorization_code` as written: after an `IntegrityError` the
      instance still holds the rejected token, so the retry finds a code and
      returns it without saving anything. */
  function IssueAsWritten(rows: Rows, u: UserId, uuids: seq<nat>): (r: Issued)
    requires u in rows && AllBounded(uuids)
    ensures r.rows == rows || (r.code.Some? && r.rows == rows[u := r.code])
  {
    if HasCode(rows[u]) then Issued(rows, rows[u])
    else if uuids == [] then Issued(rows, None)
    else
      var token := GenerateAuthorizationCode(uuids[0]);
      if TakenByOther(rows, u, token) then Issued(rows, Some(token))
      else Issued(rows[u := Some(token)], Some(token))
  }

  /** On a collision the code as written hands back another user's code and
      stores nothing on `u`'s row, where the corrected `Issue` goes on to the
      next candidate and returns only the code it stored. */
  lemma CollisionReturnsForeignCode(rows: Rows, u: UserId, uuids: seq<nat>)
    requires u in rows && AllBounded(uuids) && uuids != [] && !HasCode(rows[u])
    requires TakenByOther(rows, u, GenerateAuthorizationCode(uuids[0]))
    ensures var r := IssueAsWritten(rows, u, uuids);
      && r.code == Some(GenerateAuthorizationCode(uuids[0]))
      && r.rows == rows && r.rows[u] != r.code
      && TakenByOther(r.rows, u, r.code.value)
    ensures var c := Issue(rows, u, uuids);
      c.code.Some? ==> c.rows[u] == c.code && !TakenByOther(rows, u, c.code.value)
  {
  }

  /** Issuing again right after a successful issue returns the same code and
      writes nothing: issuance is idempotent. */
  lemma IssueIdempotent(rows: Rows, u: UserId, first: seq<nat>, second: seq<nat>)
    requires u in rows && AllBounded(first) && AllBounded(second)
    requires Issue(rows, u, first).code.Some?
    ensures var r := Issue(rows, u, first);
      Issue(r.rows, u, second) == r
  {
  }

  /** Issue succeeds whenever the oracle yields a candidate no other row holds,
      and what it stores is then a 32-digit hex code. */
  lemma {:induction false} IssueSucceedsOnFreeCandidate(rows: Rows, u: UserId, uuids: seq<nat>, k: nat)
    requires u in rows && AllBounded(uuids)
    requires k < |uuids| && !TakenByOther(rows, u, GenerateAuthorizationCode(uuids[k]))
    ensures Issue(rows, u, uuids).code.Some?
    ensures !HasCode(rows[u]) ==> |Issue(rows, u, uuids).code.value| == CodeMaxLength
  {
    if !HasCode(rows[u]) && TakenByOther(rows, u, GenerateAuthorizationCode(uuids[0])) {
      assert k > 0;
      assert uuids[1..][k - 1] == uuids[k];
      IssueSucceedsOnFreeCandidate(rows, u, uuids[1..], k - 1);
    }
  }

  /** The `MobileUserAuth` table: the rows that exist and the code each holds. */
  class MobileUserAuthTable {
    var rows: Rows

    ghost predicate Valid()
      reads this
    {
      CodesUnique(rows)
    }

    constructor ()
      ensures Valid() && rows == map[]
    {
      rows := map[];
    }

    /** `MobileUserAuth.objects.get_or_create(user=user)`: a missing row is
        created with a null code. */
    method GetOrCreate(u: UserId) returns (created: bool)
      requires Valid()
      modifies this
      ensures Valid()
      ensures created == (u !in old(rows))
      ensures rows == if created then old(rows)[u := None] else old(rows)
    {
      created := u !in rows;
      if created {
        rows := rows[u := None];
      }
    }

    /** `save()` of `u`'s row holding `code`, inside `transaction.atomic()`: it
        fails with `IntegrityError` (and writes nothing) when another row
        already holds the code. */
    method Save(u: UserId, code: string) returns (saved: bool)
      requires Valid() && u in rows
      modifies this
      ensures Valid()
      ensures saved == !TakenByOther(old(rows), u, code)
      ensures rows == if saved then old(rows)[u := Some(code)] else old(rows)
    {
      saved := !TakenByOther(rows, u, code);
      if saved {
        rows := rows[u := Some(code)];
      }
    }

    /** `set_authorization_code`: keep a present code, otherwise try fresh
        candidates until a save succeeds. The recursion on `IntegrityError`
        becomes a loop over the oracle's candidates. */
    method SetAuthorizationCode(u: UserId, uuids: seq<nat>) returns (code: Option<string>)
      requires Valid() && u in rows && AllBounded(uuids)
      modifies this
      ensures Valid()
      ensures Issued(rows, code) == Issue(old(rows), u, uuids)
    {
      ghost var start := rows;
      var i := 0;
      while !HasCode(rows[u]) && i < |uuids|
        invariant Valid() && u in rows
        invariant 0 <= i <= |uuids|
        invariant Issue(start, u, uuids) == Issue(rows, u, uuids[i..])
        invariant !HasCode(rows[u]) ==> rows == start
      {
        var token := GenerateAuthorizationCode(uuids[i]);
        var saved := Save(u, token);
        if !saved {
          assert uuids[i..][1..] == uuids[i + 1..];
          i := i + 1;
        }
      }
      if HasCode(rows[u]) {
        code := rows[u];
      } else {
        code := None;
      }
    }
  }
}
