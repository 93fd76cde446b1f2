/** The validator list of validator_system.rs: records stored in the slots of a list, and the total of
    their scores beside it. */
module ValidatorStorage {
  import opened Base
  import opened Sums
  import opened Model
  import opened Ledger
  import opened Codec
  import opened RecordList

  /** A record with the bump of its flag's address. */
  type Entry = (ValidatorRecord, byte)

  function EntryScore(): Entry -> nat {
    (entry: Entry) => entry.0.score
  }

  function Validators(entries: seq<Entry>): (validators: seq<ValidatorRecord>)
    ensures |validators| == |entries|
  {
    seq(|entries|, k requires 0 <= k < |entries| => entries[k].0)
  }

  ghost predicate Stored(slots: seq<seq<byte>>, entries: seq<Entry>) {
    && |slots| == |entries|
    && forall k :: 0 <= k < |slots| ==> DecodeValidator(slots[k]) == Success(entries[k])
  }

  lemma StoredAfterPush(slots: seq<seq<byte>>, entries: seq<Entry>, after: seq<seq<byte>>, entry: Entry)
    requires Stored(slots, entries) && |after| == |slots| + 1 && after[..|slots|] == slots
    requires DecodeValidator(after[|slots|]) == Success(entry)
    ensures Stored(after, entries + [entry])
  {
    forall k | 0 <= k < |slots|
      ensures DecodeValidator(after[k]) == Success(entries[k])
    {
      assert after[k] == after[..|slots|][k];
    }
  }

  class ValidatorRecords {
    const list: List
    var totalScore: u32

    ghost predicate Valid()
      reads list, list.data
    {
      && list.Valid() && list.itemSize >= VALIDATOR_RECORD_BYTES
      && forall k :: 0 <= k < list.count ==> DecodeValidator(list.Slots()[k]).Success?
    }

    ghost function Entries(): (entries: seq<Entry>)
      requires Valid()
      reads list, list.data
      ensures |entries| == list.count
    {
      seq(list.count, k requires 0 <= k < list.count && Valid() reads list, list.data =>
        DecodeValidator(list.Slots()[k]).value)
    }

    /** The total is the sum of the scores in the list. */
    ghost predicate Scored()
      requires Valid()
      reads this, list, list.data
    {
      totalScore == Sum(Entries(), EntryScore())
    }

    /** The slots decide the entries. */
    lemma StoredAre(entries: seq<Entry>)
      requires list.Valid() && list.itemSize >= VALIDATOR_RECORD_BYTES && Stored(list.Slots(), entries)
      ensures Valid() && Entries() == entries
    {
    }

    ghost function ListCapacity(): nat
      requires Valid()
      reads list, list.data
    {
      Capacity(list.itemSize, list.data.Length).value
    }

    constructor (additionalSpace: u32, data: array<byte>)
      requires VALIDATOR_RECORD_BYTES + additionalSpace <= U32_MAX
      requires HEADER <= data.Length <= HEADER + U32_MAX
      ensures fresh(list) && list.data == data && Valid() && Entries() == [] && Scored()
    {
      list := new List(VALIDATOR_RECORD_BYTES + additionalSpace, data);
      totalScore := 0;
    }

    /** A new validator has no stake and was never touched. The total is raised after the push, so that
        an overflow there leaves a push behind for the aborted transaction to discard. */
    method Add(vote: Key, score: u32, bump: byte) returns (g: Guard)
      requires Valid() && vote < Pow256(ADDRESS_BYTES)
      modifies this, list`count, list.data
      ensures Valid()
      ensures g == if |old(Entries())| >= ListCapacity() then Fail(ListOverflow)
                   else if old(totalScore) + score > U32_MAX then Fail(Overflow) else Pass
      ensures g == Fail(ListOverflow) ==> Entries() == old(Entries()) && totalScore == old(totalScore)
      ensures g.Pass? ==>
                && Entries() == old(Entries()) + [(ValidatorRecord(vote, 0, score, NEVER, 0), bump)]
                && totalScore == old(totalScore) + score && (old(Scored()) ==> Scored())
    {
      var record := ValidatorRecord(vote, 0, score, NEVER, 0);
      ghost var entries := Entries();
      g := PushEntry(record, bump);
      if g.Pass? {
        SumPush(entries, (record, bump), EntryScore());
        if totalScore + score > U32_MAX {
          return Fail(Overflow);
        }
        totalScore := totalScore + score;
      }
    }

    method PushEntry(record: ValidatorRecord, bump: byte) returns (g: Guard)
      requires Valid() && ValidatorFits(record)
      modifies list`count, list.data
      ensures Valid()
      ensures g == if |old(Entries())| >= ListCapacity() then Fail(ListOverflow) else Pass
      ensures Entries() == if g.Fail? then old(Entries()) else old(Entries()) + [(record, bump)]
    {
      hide DecodeValidator, EncodeValidator, Capacity, ValidatorFits;
      ghost var slots := list.Slots();
      g := list.Push(EncodeValidator(record, bump));
      if g.Pass? {
        ghost var last := list.Slots()[|slots|];
        ValidatorRoundTrip(record, bump, last[VALIDATOR_RECORD_BYTES..]);
        assert last == EncodeValidator(record, bump) + last[VALIDATOR_RECORD_BYTES..];
        StoredAfterPush(slots, old(Entries()), list.Slots(), (record, bump));
        StoredAre(old(Entries()) + [(record, bump)]);
      }
    }

    method GetChecked(index: u32, vote: Key) returns (r: Result<Entry>)
      requires Valid()
      ensures r == if index >= |Entries()| then Failure(ListIndexOutOfBounds)
                   else if Entries()[index].0.vote != vote then Failure(WrongValidatorAccountOrIndex)
                   else Success(Entries()[index])
    {
      var slot := list.Get(index);
      if slot.Failure? {
        return Failure(slot.error);
      }
      r := DecodeValidator(slot.value);
      if r.Success? && r.value.0.vote != vote {
        r := Failure(WrongValidatorAccountOrIndex);
      }
    }

    /** The total of the scores is left to the caller. */
    method Set(index: u32, record: ValidatorRecord, bump: byte) returns (g: Guard)
      requires Valid() && ValidatorFits(record)
      modifies list.data
      ensures Valid()
      ensures g == if index < |old(Entries())| then Pass else Fail(ListIndexOutOfBounds)
      ensures Entries() == if g.Pass? then old(Entries())[index := (record, bump)] else old(Entries())
    {
      ghost var slots := list.Slots();
      g := list.Set(index, EncodeValidator(record, bump));
      if g.Pass? {
        ValidatorRoundTrip(record, bump, slots[index][VALIDATOR_RECORD_BYTES..]);
      }
    }

    /** `record` is the one the caller read from that slot. */
    method Remove(index: u32, record: ValidatorRecord) returns (g: Guard)
      requires Valid() && index < |Entries()| && Entries()[index].0 == record
      modifies this, list`count, list.data
      ensures Valid()
      ensures g == if record.active != 0 then Fail(RemovingValidatorWithBalance)
                   else if old(totalScore) < record.score then Fail(Underflow) else Pass
      ensures old(Scored()) && record.active == 0 ==> g.Pass?
      ensures g.Fail? ==> Entries() == old(Entries()) && totalScore == old(totalScore)
      ensures g.Pass? ==>
                && Entries() == SwapRemove(old(Entries()), index)
                && totalScore == old(totalScore) - record.score && (old(Scored()) ==> Scored())
    {
      hide DecodeValidator, Sum;
      ghost var slots, entries := list.Slots(), Entries();
      SumMember(entries, index, EntryScore());
      SumSwapRemove(entries, index, EntryScore());
      if record.active != 0 {
        return Fail(RemovingValidatorWithBalance);
      }
      if totalScore < record.score {
        return Fail(Underflow);
      }
      totalScore := totalScore - record.score;
      g := list.Remove(index);
      assert list.Slots() == SwapRemove(slots, index);
      assert forall k :: 0 <= k < list.count ==> list.Slots()[k] == slots[if k == index then |slots| - 1 else k];
    }

    method Get(index: u32) returns (r: Result<Entry>)
      requires Valid()
      ensures r == if index >= |Entries()| then Failure(ListIndexOutOfBounds) else Success(Entries()[index])
      ensures r.Success? ==> ValidatorFits(r.value.0)
    {
      var slot := list.Get(index);
      if slot.Failure? {
        return Failure(slot.error);
      }
      ValidatorEncodingIsUnique(slot.value);
      r := DecodeValidator(slot.value);
    }

    /** One validator takes the balance the upgrade re-derived, and its gap is taken off what is left. */
    method TakeOver(index: u32, left: nat) returns (r: Result<nat>)
      requires Valid() && index < |Entries()|
      modifies list.data
      ensures Valid() && |Entries()| == |old(Entries())|
      ensures var v := Validators(old(Entries()))[index];
        if v.upgrading <= v.active && v.active - v.upgrading <= left then
          && r == Success(left - (v.active - v.upgrading))
          && Validators(Entries()) == Validators(old(Entries()))[index := v.(active := v.upgrading, upgrading := 0)]
        else r == Failure(Underflow)
    {
      ghost var entries := Entries();
      var read := Get(index);
      var entry := read.value;
      var validator := entry.0;
      var gap :- Sub(validator.active, validator.upgrading);
      var rest :- Sub(left, gap);
      validator := validator.(active := validator.upgrading, upgrading := 0);
      var _ := Set(index, validator, entry.1);
      assert Entries() == entries[index := (validator, entry.1)];
      ValidatorsSet(entries, index, (validator, entry.1));
      return Success(rest);
    }

    /** The validator loop of the upgrade, reading and writing the slots: on the records it is one pass
        of the ledger's loop. */
    method FinalizeFrom(start: u32, balanceLeft: nat, max: u32) returns (r: Result<(u32, nat)>)
      requires Valid() && start <= |Entries()|
      modifies list.data
      ensures Valid()
      ensures var expected := Ledger.FinalizeFrom(Validators(old(Entries())), start, balanceLeft, max);
        if expected.Success? then
          Validators(Entries()) == expected.value.0 && r == Success((expected.value.1, expected.value.2))
        else r == Failure(expected.error)
    {
      hide Valid, Entries, Validators, Ledger.FinalizeFrom;
      var visited: u32, left: nat, budget: nat := start, balanceLeft, max;
      ghost var before := Validators(Entries());
      while visited < list.count && budget > 0
        invariant Valid() && visited <= |Entries()|
        invariant Ledger.FinalizeFrom(before, start, balanceLeft, max)
               == Ledger.FinalizeFrom(Validators(Entries()), visited, left, budget)
        decreases budget
      {
        PassSteps(Validators(Entries()), visited, left, budget);
        left :- TakeOver(visited, left);
        visited := visited + 1;
        budget := budget - 1;
      }
      PassSteps(Validators(Entries()), visited, left, budget);
      return Success((visited, left));
    }
  }

  lemma ValidatorsSet(entries: seq<Entry>, index: nat, entry: Entry)
    requires index < |entries|
    ensures Validators(entries[index := entry]) == Validators(entries)[index := entry.0]
  {
  }

  /** One turn of the loop. */
  lemma PassSteps(validators: seq<ValidatorRecord>, visited: nat, left: nat, max: nat)
    ensures Ledger.FinalizeFrom(validators, visited, left, max) ==
      if visited >= |validators| || max == 0 then Success((validators, visited, left))
      else
        var v := validators[visited];
        if v.upgrading <= v.active && v.active - v.upgrading <= left then
          Ledger.FinalizeFrom(validators[visited := v.(active := v.upgrading, upgrading := 0)], visited + 1,
                              left - (v.active - v.upgrading), max - 1)
        else Failure(Underflow)
  {
  }
}
