/** The borsh layout of the two kinds of list records: integers in little-endian order, a flag and
    a variant index as one byte each. */
module Codec {
  import opened Base
  import opened Model

  type byte = n: int | 0 <= n < 256

  const ADDRESS_BYTES: nat := 32
  const STAKE_RECORD_BYTES: nat := 50
  const VALIDATOR_RECORD_BYTES: nat := 61

  // ---------------------------------------------------------------- integers

  function Pow256(k: nat): nat {
    if k == 0 then 1 else 256 * Pow256(k - 1)
  }

  function LittleEndian(n: nat, k: nat): (bytes: seq<byte>)
    ensures |bytes| == k
  {
    if k == 0 then [] else [n % 256] + LittleEndian(n / 256, k - 1)
  }

  function FromLittleEndian(bytes: seq<byte>): nat {
    if bytes == [] then 0 else bytes[0] + 256 * FromLittleEndian(bytes[1..])
  }

  lemma {:induction false} IntegerRoundTrip(n: nat, k: nat)
    requires n < Pow256(k)
    ensures FromLittleEndian(LittleEndian(n, k)) == n
  {
    if k > 0 {
      IntegerRoundTrip(n / 256, k - 1);
      assert LittleEndian(n, k)[1..] == LittleEndian(n / 256, k - 1);
    }
  }

  lemma {:induction false} BytesRoundTrip(bytes: seq<byte>)
    ensures FromLittleEndian(bytes) < Pow256(|bytes|)
    ensures LittleEndian(FromLittleEndian(bytes), |bytes|) == bytes
  {
    if bytes != [] {
      BytesRoundTrip(bytes[1..]);
      LowByte(bytes[0], FromLittleEndian(bytes[1..]));
    }
  }

  lemma LowByte(low: byte, rest: nat)
    ensures (low + 256 * rest) % 256 == low && (low + 256 * rest) / 256 == rest
  {
  }

  lemma Widths()
    ensures Pow256(8) == U64_MAX + 1 && Pow256(4) == U32_MAX + 1 && Pow256(1) == 256
  {
  }

  // ---------------------------------------------------------------- stake records

  /** The fields fit the integers they are stored in. */
  predicate StakeFits(r: StakeRecord) {
    r.account < Pow256(ADDRESS_BYTES) && r.delegated <= U64_MAX && r.updateEpoch <= U64_MAX
  }

  function EncodeStake(r: StakeRecord): (bytes: seq<byte>)
    ensures |bytes| == STAKE_RECORD_BYTES
  {
    LittleEndian(r.account, ADDRESS_BYTES) + LittleEndian(r.delegated, 8) + LittleEndian(r.updateEpoch, 8)
    + [if r.emergency then 1 else 0] + [StatusTag(r.status)]
  }

  function StatusTag(status: StakeStatus): byte {
    match status
    case Unknown => 0
    case Active => 1
    case Deactivating => 2
  }

  function StatusOf(tag: byte): StakeStatus
    requires tag <= 2
  {
    if tag == 0 then StakeStatus.Unknown else if tag == 1 then StakeStatus.Active else Deactivating
  }

  /** Reads a record off the front; a flag or a variant that does not exist is refused. */
  function DecodeStake(bytes: seq<byte>): Result<StakeRecord> {
    if |bytes| < STAKE_RECORD_BYTES then Failure(SerializationFailed) else
    :- Require(bytes[48] <= 1 && bytes[49] <= 2, SerializationFailed);
    Success(StakeRecord(
      FromLittleEndian(bytes[..32]), FromLittleEndian(bytes[32..40]), FromLittleEndian(bytes[40..48]), bytes[48] == 1,
      StatusOf(bytes[49])))
  }

  /** A record comes back from its bytes, whatever follows them in the slot. */
  lemma StakeRoundTrip(r: StakeRecord, rest: seq<byte>)
    requires StakeFits(r)
    ensures DecodeStake(EncodeStake(r) + rest) == Success(r)
  {
    Widths();
    var all := EncodeStake(r) + rest;
    assert all[..32] == LittleEndian(r.account, 32);
    assert all[32..40] == LittleEndian(r.delegated, 8);
    assert all[40..48] == LittleEndian(r.updateEpoch, 8);
    IntegerRoundTrip(r.account, 32);
    IntegerRoundTrip(r.delegated, 8);
    IntegerRoundTrip(r.updateEpoch, 8);
    hide LittleEndian, FromLittleEndian, Pow256;
  }

  /** What is accepted is the encoding of what it is read as: no record has two encodings. */
  lemma StakeEncodingIsUnique(bytes: seq<byte>)
    requires DecodeStake(bytes).Success?
    ensures StakeFits(DecodeStake(bytes).value)
    ensures EncodeStake(DecodeStake(bytes).value) == bytes[..STAKE_RECORD_BYTES]
  {
    hide LittleEndian, FromLittleEndian, Pow256;
    var r := DecodeStake(bytes).value;
    Widths();
    BytesRoundTrip(bytes[..32]);
    BytesRoundTrip(bytes[32..40]);
    BytesRoundTrip(bytes[40..48]);
    assert bytes[..50] == bytes[..32] + bytes[32..40] + bytes[40..48] + [bytes[48]] + [bytes[49]];
  }

  // ---------------------------------------------------------------- validator records

  predicate ValidatorFits(v: ValidatorRecord) {
    && v.vote < Pow256(ADDRESS_BYTES) && v.active <= U64_MAX && v.score <= U32_MAX
    && v.deltaEpoch <= U64_MAX && v.upgrading <= U64_MAX
  }

  /** `bump` belongs to the derived address of the validator's flag; the ledger never looks at it. */
  function EncodeValidator(v: ValidatorRecord, bump: byte): (bytes: seq<byte>)
    ensures |bytes| == VALIDATOR_RECORD_BYTES
  {
    LittleEndian(v.vote, ADDRESS_BYTES) + LittleEndian(v.active, 8) + LittleEndian(v.score, 4)
    + LittleEndian(v.deltaEpoch, 8) + [bump] + LittleEndian(v.upgrading, 8)
  }

  function DecodeValidator(bytes: seq<byte>): Result<(ValidatorRecord, byte)> {
    if |bytes| < VALIDATOR_RECORD_BYTES then Failure(SerializationFailed) else
    Success((ValidatorRecord(
      FromLittleEndian(bytes[..32]), FromLittleEndian(bytes[32..40]), FromLittleEndian(bytes[40..44]),
      FromLittleEndian(bytes[44..52]), FromLittleEndian(bytes[53..61])), bytes[52]))
  }

  lemma ValidatorRoundTrip(v: ValidatorRecord, bump: byte, rest: seq<byte>)
    requires ValidatorFits(v)
    ensures DecodeValidator(EncodeValidator(v, bump) + rest) == Success((v, bump))
  {
    Widths();
    var all := EncodeValidator(v, bump) + rest;
    assert all[..32] == LittleEndian(v.vote, 32);
    assert all[32..40] == LittleEndian(v.active, 8);
    assert all[40..44] == LittleEndian(v.score, 4);
    assert all[44..52] == LittleEndian(v.deltaEpoch, 8);
    assert all[53..61] == LittleEndian(v.upgrading, 8);
    IntegerRoundTrip(v.vote, 32);
    IntegerRoundTrip(v.active, 8);
    IntegerRoundTrip(v.score, 4);
    IntegerRoundTrip(v.deltaEpoch, 8);
    IntegerRoundTrip(v.upgrading, 8);
    hide LittleEndian, FromLittleEndian, Pow256;
  }

  /** What is accepted is the encoding of what it is read as. */
  lemma ValidatorEncodingIsUnique(bytes: seq<byte>)
    requires DecodeValidator(bytes).Success?
    ensures ValidatorFits(DecodeValidator(bytes).value.0)
    ensures var (v, bump) := DecodeValidator(bytes).value; EncodeValidator(v, bump) == bytes[..VALIDATOR_RECORD_BYTES]
  {
    hide LittleEndian, FromLittleEndian, Pow256;
    Widths();
    BytesRoundTrip(bytes[..32]);
    BytesRoundTrip(bytes[32..40]);
    BytesRoundTrip(bytes[40..44]);
    BytesRoundTrip(bytes[44..52]);
    BytesRoundTrip(bytes[53..61]);
    assert bytes[..61] == bytes[..32] + bytes[32..40] + bytes[40..44] + bytes[44..52] + [bytes[52]] + bytes[53..61];
  }
}
