/** list.rs: an array of fixed-size slots in the data of an account, behind an eight-byte
    discriminator. Its slots are a sequence under set, push and swap-remove. */
module RecordList {
  import opened Base
  import opened Sums
  import opened Codec

  const HEADER: nat := 8

  /** The account length for so many items, in `u32` arithmetic. */
  function BytesFor(itemSize: u32, count: u32): Result<nat> {
    if count * itemSize <= U32_MAX then Add32(HEADER, count * itemSize) else Failure(Overflow)
  }

  /** How many items an account of this length holds; items without a size always fit. */
  function Capacity(itemSize: u32, length: nat): Result<nat> {
    if length < HEADER then Failure(AccountDataTooSmall) else
    :- Require(length - HEADER <= U32_MAX, CalculationFailure);
    Success(if itemSize == 0 then U32_MAX else (length - HEADER) / itemSize)
  }

  /** An account sized for so many items holds exactly so many. */
  lemma CapacityOfBytesFor(itemSize: u32, count: u32)
    requires itemSize > 0 && BytesFor(itemSize, count).Success?
    ensures Capacity(itemSize, BytesFor(itemSize, count).value) == Success(count)
  {
    assert (count * itemSize) / itemSize == count;
  }

  /** Every slot below the capacity lies in the account, and its offset fits a `u32`. */
  lemma SlotInBounds(itemSize: u32, length: nat, index: nat)
    requires Capacity(itemSize, length).Success? && index < Capacity(itemSize, length).value
    ensures 0 <= index * itemSize <= U32_MAX
    ensures HEADER + index * itemSize + itemSize <= length
  {
    if itemSize > 0 {
      var capacity: nat := Capacity(itemSize, length).value;
      assert capacity * itemSize <= length - HEADER;
      assert (index + 1) * itemSize <= capacity * itemSize;
      assert (index + 1) * itemSize == index * itemSize + itemSize;
    }
  }

  /** Slots do not overlap. */
  lemma SlotsApart(itemSize: nat, i: nat, k: nat)
    requires i < k
    ensures i * itemSize + itemSize <= k * itemSize
  {
    assert (i + 1) * itemSize <= k * itemSize;
  }

  function SlotOf(bytes: seq<byte>, itemSize: nat, index: nat): (slot: seq<byte>)
    requires HEADER + index * itemSize + itemSize <= |bytes|
    ensures |slot| == itemSize
  {
    bytes[HEADER + index * itemSize..HEADER + index * itemSize + itemSize]
  }

  /** The slots of a buffer after an item was written over the front of one of them. */
  lemma SlotAfterWrite(before: seq<byte>, after: seq<byte>, itemSize: nat, index: nat, item: seq<byte>, k: nat)
    requires |item| <= itemSize
    requires HEADER + index * itemSize + itemSize <= |before| && HEADER + k * itemSize + itemSize <= |before|
    requires after == before[..HEADER + index * itemSize] + item + before[HEADER + index * itemSize + |item|..]
    ensures SlotOf(after, itemSize, k) ==
            if k == index then item + SlotOf(before, itemSize, index)[|item|..] else SlotOf(before, itemSize, k)
  {
    if k < index {
      SlotsApart(itemSize, k, index);
    } else if k > index {
      SlotsApart(itemSize, index, k);
    }
    BytesAfterWrite(before, after, itemSize, HEADER + index * itemSize, HEADER + k * itemSize, item);
  }

  lemma BytesAfterWrite(before: seq<byte>, after: seq<byte>, size: nat, start: nat, at: nat, item: seq<byte>)
    requires |item| <= size && start + size <= |before| && at + size <= |before|
    requires at == start || at + size <= start || start + size <= at
    requires after == before[..start] + item + before[start + |item|..]
    ensures after[at..at + size] == if at == start then item + before[at..at + size][|item|..]
                                    else before[at..at + size]
  {
    var slot := before[at..at + size];
    var expected := if at == start then item + slot[|item|..] else slot;
    forall b | 0 <= b < size
      ensures after[at..at + size][b] == expected[b]
    {
      assert after[at..at + size][b] == after[at + b];
      assert slot[b] == before[at + b];
    }
    assert after[at..at + size] == expected;
  }

  class List {
    const data: array<byte>
    const itemSize: u32
    var count: u32

    ghost predicate Valid()
      reads this
    {
      Capacity(itemSize, data.Length).Success? && count <= Capacity(itemSize, data.Length).value
    }

    /** The items, each as the bytes of its slot. */
    ghost function Slots(): (slots: seq<seq<byte>>)
      requires Valid()
      reads this, data
      ensures |slots| == count
    {
      seq(count, index requires 0 <= index < count && Valid() reads this, data =>
        SlotInBounds(itemSize, data.Length, index);
        SlotOf(data[..], itemSize, index))
    }

    constructor (itemSize: u32, data: array<byte>)
      ensures this.itemSize == itemSize && this.data == data && count == 0
    {
      this.itemSize := itemSize;
      this.data := data;
      count := 0;
    }

    /** Marks a blank account with the discriminator. */
    method InitAccount(discriminator: seq<byte>) returns (g: Guard)
      requires |discriminator| == HEADER && count == 0
      modifies data
      ensures g.Pass? <==> data.Length >= HEADER && forall k :: 0 <= k < HEADER ==> old(data[k]) == 0
      ensures g.Pass? ==> data[..] == discriminator + old(data[HEADER..])
      ensures g.Fail? ==> data[..] == old(data[..])
    {
      if data.Length < HEADER {
        return Fail(AccountDataTooSmall);
      }
      if data[..HEADER] != seq(HEADER, _ => 0) {
        assert exists k :: 0 <= k < HEADER && data[k] != 0;
        return Fail(AccountAlreadyInUse);
      }
      forall k | 0 <= k < HEADER {
        data[k] := discriminator[k];
      }
      g := Pass;
    }

    method Get(index: u32) returns (r: Result<seq<byte>>)
      requires Valid()
      ensures r == if index < count then Success(Slots()[index]) else Failure(ListIndexOutOfBounds)
    {
      if index >= count {
        return Failure(ListIndexOutOfBounds);
      }
      SlotInBounds(itemSize, data.Length, index);
      var start := HEADER + index * itemSize;
      r := Success(data[start..start + itemSize]);
    }

    /** Writes an item over the front of a slot; what is behind it in the slot stays. */
    method Write(index: u32, item: seq<byte>) returns (g: Guard)
      requires Capacity(itemSize, data.Length).Success? && index < Capacity(itemSize, data.Length).value
      modifies data
      ensures g.Pass? <==> |item| <= itemSize
      ensures g.Fail? ==> g.error.SerializationFailed? && data[..] == old(data[..])
      ensures g.Pass? ==> HEADER + index * itemSize + |item| <= data.Length
      ensures g.Pass? ==>
                data[..]
                    == old(data[..HEADER + index * itemSize]) + item + old(data[HEADER + index * itemSize + |item|..])
    {
      if |item| > itemSize {
        return Fail(SerializationFailed);
      }
      SlotInBounds(itemSize, data.Length, index);
      var start := HEADER + index * itemSize;
      forall k | 0 <= k < |item| {
        data[start + k] := item[k];
      }
      g := Pass;
    }

    method Set(index: u32, item: seq<byte>) returns (g: Guard)
      requires Valid()
      modifies data
      ensures Valid()
      ensures g == if index >= count then Fail(ListIndexOutOfBounds)
                   else if |item| > itemSize then Fail(SerializationFailed) else Pass
      ensures Slots() == if g.Pass? then old(Slots())[index := item + old(Slots())[index][|item|..]] else old(Slots())
    {
      if index >= count {
        return Fail(ListIndexOutOfBounds);
      }
      ghost var before := data[..];
      g := Write(index, item);
      if g.Pass? {
        forall k | 0 <= k < count
          ensures Slots()[k] == if k == index then item + old(Slots())[k][|item|..] else old(Slots())[k]
        {
          SlotInBounds(itemSize, data.Length, index);
          SlotInBounds(itemSize, data.Length, k);
          SlotAfterWrite(before, data[..], itemSize, index, item, k);
        }
      }
    }

    method Push(item: seq<byte>) returns (g: Guard)
      requires Valid()
      modifies this`count, data
      ensures Valid()
      ensures g == if old(count) >= Capacity(itemSize, data.Length).value then Fail(ListOverflow)
                   else if |item| > itemSize then Fail(SerializationFailed) else Pass
      ensures g.Fail? ==> Slots() == old(Slots())
      ensures g.Pass? ==>
          count == old(count) + 1 && Slots()[..old(count)] == old(Slots()) && item <= Slots()[old(count)]
    {
      var capacity := Capacity(itemSize, data.Length).value;
      if count >= capacity {
        return Fail(ListOverflow);
      }
      ghost var before := data[..];
      ghost var slots := Slots();
      ghost var last: u32 := count;
      g := Write(count, item);
      if g.Pass? {
        count := count + 1;
        SlotInBounds(itemSize, data.Length, last);
        SlotAfterWrite(before, data[..], itemSize, last, item, last);
        forall k | 0 <= k < last
          ensures Slots()[k] == slots[k]
        {
          SlotInBounds(itemSize, data.Length, k);
          SlotAfterWrite(before, data[..], itemSize, last, item, k);
        }
      }
    }

    /** Copies the bytes of one slot over those of an earlier one. */
    method CopySlot(from: u32, to: u32)
      requires Capacity(itemSize, data.Length).Success? && to < from < Capacity(itemSize, data.Length).value
      modifies data
      ensures HEADER + to * itemSize + itemSize <= data.Length && HEADER + from * itemSize + itemSize <= data.Length
      ensures data[..] == old(data[..HEADER + to * itemSize]) + old(SlotOf(data[..], itemSize, from))
                          + old(data[HEADER + to * itemSize + itemSize..])
    {
      SlotInBounds(itemSize, data.Length, to);
      SlotInBounds(itemSize, data.Length, from);
      var start, source := HEADER + to * itemSize, HEADER + from * itemSize;
      forall b | 0 <= b < itemSize {
        data[start + b] := data[source + b];
      }
    }

    /** The last item moves into the freed slot. */
    method Remove(index: u32) returns (g: Guard)
      requires Valid()
      modifies this`count, data
      ensures Valid()
      ensures g == if index >= old(count) then Fail(ListIndexOutOfBounds) else Pass
      ensures Slots() == if g.Pass? then SwapRemove(old(Slots()), index) else old(Slots())
    {
      if index >= count {
        return Fail(ListIndexOutOfBounds);
      }
      ghost var before := data[..];
      ghost var slots := Slots();
      count := count - 1;
      if index < count {
        CopySlot(count, index);
        SlotInBounds(itemSize, data.Length, index);
        SlotInBounds(itemSize, data.Length, count);
        forall k | 0 <= k < count
          ensures Slots()[k] == if k == index then slots[count] else slots[k]
        {
          SlotInBounds(itemSize, data.Length, k);
          SlotAfterWrite(before, data[..], itemSize, index, slots[count], k);
        }
      }
      assert Slots() == SwapRemove(slots, index);
      g := Pass;
    }
  }
}
