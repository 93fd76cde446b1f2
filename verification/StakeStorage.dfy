/** The stake list of stake_system.rs: records stored in the slots of a list. On the records, the
    byte operations are the sequence operations the ledger is described with. */
module StakeStorage {
  import opened Base
  import opened Sums
  import opened Model
  import opened Codec
  import opened RecordList

  ghost predicate Stored(slots: seq<seq<byte>>, records: seq<StakeRecord>) {
    && |slots| == |records|
    && forall k :: 0 <= k < |slots| ==> DecodeStake(slots[k]) == Success(records[k])
  }

  lemma StoredAfterPush(slots: seq<seq<byte>>, records: seq<StakeRecord>, after: seq<seq<byte>>, record: StakeRecord)
    requires Stored(slots, records) && |after| == |slots| + 1 && after[..|slots|] == slots
    requires DecodeStake(after[|slots|]) == Success(record)
    ensures Stored(after, records + [record])
  {
    forall k | 0 <= k < |slots|
      ensures DecodeStake(after[k]) == Success(records[k])
    {
      assert after[k] == after[..|slots|][k];
    }
  }

  class StakeRecords {
    const list: List

    ghost predicate Valid()
      reads list, list.data
    {
      && list.Valid() && list.itemSize >= STAKE_RECORD_BYTES
      && forall k :: 0 <= k < list.count ==> DecodeStake(list.Slots()[k]).Success?
    }

    ghost function Records(): (records: seq<StakeRecord>)
      requires Valid()
      reads list, list.data
      ensures |records| == list.count
    {
      seq(list.count, k requires 0 <= k < list.count && Valid() reads list, list.data =>
        DecodeStake(list.Slots()[k]).value)
    }

    /** The slots decide the records. */
    lemma StoredAre(records: seq<StakeRecord>)
      requires list.Valid() && list.itemSize >= STAKE_RECORD_BYTES && Stored(list.Slots(), records)
      ensures Valid() && Records() == records
    {
    }

    ghost function ListCapacity(): nat
      requires Valid()
      reads list, list.data
    {
      Capacity(list.itemSize, list.data.Length).value
    }

    /** Records may be stored with spare room behind them. */
    constructor (additionalSpace: u32, data: array<byte>)
      requires STAKE_RECORD_BYTES + additionalSpace <= U32_MAX
      requires HEADER <= data.Length <= HEADER + U32_MAX
      ensures fresh(list) && list.data == data && Valid() && Records() == []
    {
      list := new List(STAKE_RECORD_BYTES + additionalSpace, data);
    }

    method Add(account: Key, delegated: u64, clock: Clock, emergency: bool, active: bool) returns (g: Guard)
      requires Valid() && account < Pow256(ADDRESS_BYTES) && clock.epoch <= U64_MAX
      modifies list`count, list.data
      ensures Valid()
      ensures g == if |old(Records())| < ListCapacity() then Pass else Fail(ListOverflow)
      ensures Records() == if g.Fail? then old(Records())
                           else old(Records()) + [StakeRecord(account, delegated, clock.epoch, emergency,
                                                              if active then StakeStatus.Active else Deactivating)]
    {
      var record := StakeRecord(account, delegated, clock.epoch, emergency,
                                if active then StakeStatus.Active else Deactivating);
      hide DecodeStake, EncodeStake, Capacity;
      ghost var slots := list.Slots();
      g := list.Push(EncodeStake(record));
      if g.Pass? {
        ghost var last := list.Slots()[|slots|];
        StakeRoundTrip(record, last[STAKE_RECORD_BYTES..]);
        assert last == EncodeStake(record) + last[STAKE_RECORD_BYTES..];
        StoredAfterPush(slots, old(Records()), list.Slots(), record);
        StoredAre(old(Records()) + [record]);
      }
    }

    method GetChecked(index: u32, account: Key) returns (r: Result<StakeRecord>)
      requires Valid()
      ensures r == if index >= |Records()| then Failure(ListIndexOutOfBounds)
                   else if Records()[index].account != account then Failure(WrongStakeAccountOrIndex)
                   else Success(Records()[index])
    {
      var slot := list.Get(index);
      if slot.Failure? {
        return Failure(slot.error);
      }
      r := DecodeStake(slot.value);
      if r.Success? && r.value.account != account {
        r := Failure(WrongStakeAccountOrIndex);
      }
    }

    method Set(index: u32, record: StakeRecord) returns (g: Guard)
      requires Valid() && StakeFits(record)
      modifies list.data
      ensures Valid()
      ensures g == if index < |old(Records())| then Pass else Fail(ListIndexOutOfBounds)
      ensures Records() == if g.Pass? then old(Records())[index := record] else old(Records())
    {
      ghost var slots := list.Slots();
      g := list.Set(index, EncodeStake(record));
      if g.Pass? {
        StakeRoundTrip(record, slots[index][STAKE_RECORD_BYTES..]);
      }
    }

    method Remove(index: u32) returns (g: Guard)
      requires Valid()
      modifies list`count, list.data
      ensures Valid()
      ensures g == if index < |old(Records())| then Pass else Fail(ListIndexOutOfBounds)
      ensures Records() == if g.Pass? then SwapRemove(old(Records()), index) else old(Records())
    {
      hide DecodeStake;
      ghost var slots := list.Slots();
      g := list.Remove(index);
      if g.Pass? {
        assert list.Slots() == SwapRemove(slots, index);
        assert forall k :: 0 <= k < list.count ==> list.Slots()[k] == slots[if k == index then |slots| - 1 else k];
      }
    }

    /** The list work of create_canonical_stake: the new record is pushed, then the old one removed.
        Together they write the new record over the old slot. */
    method Supersede(index: u32, account: Key, delegated: u64, clock: Clock) returns (g: Guard)
      requires Valid() && index < |Records()| && account < Pow256(ADDRESS_BYTES) && clock.epoch <= U64_MAX
      modifies list`count, list.data
      ensures Valid()
      ensures g == if |old(Records())| < ListCapacity() then Pass else Fail(ListOverflow)
      ensures Records() == if g.Fail? then old(Records())
                           else old(Records())[index :=
                                               StakeRecord(account, delegated, clock.epoch, false, StakeStatus.Active)]
    {
      ghost var before := Records();
      g := Add(account, delegated, clock, false, true);
      if g.Pass? {
        PushThenRemoveReplaces(before, index, StakeRecord(account, delegated, clock.epoch, false, StakeStatus.Active));
        g := Remove(index);
      }
    }
  }
}
