/**
 The radio channels of a GSM cell: which are busy is kept in a bitmap and in a doubly linked list, both
 updated in place by every call that starts or ends.
 */
module Channels {
  import Bits

  const CHANNELS_PER_CELL := 1000
  const BITS := 32

  /** Words allocated for the bitmap, and those of them that are initialised. */
  const ALLOCATED_WORDS := 2 * (CHANNELS_PER_CELL / BITS + 1)
  const INITIAL_WORDS := CHANNELS_PER_CELL / BITS + 1

  // ---------- the bitmap ----------

  /** `CHECK_CHANNEL`. */
  predicate Marked(words: seq<bv32>, i: int)
    requires 0 <= i < BITS * |words|
  {
    Bits.Has(words[i / BITS], Bits.Mask(i % BITS))
  }

  /** `SET_CHANNEL`. */
  function Mark(words: seq<bv32>, i: int): seq<bv32>
    requires 0 <= i < BITS * |words|
  {
    words[i / BITS := Bits.With(words[i / BITS], Bits.Mask(i % BITS))]
  }

  /** `RESET_CHANNEL`. */
  function Unmark(words: seq<bv32>, i: int): seq<bv32>
    requires 0 <= i < BITS * |words|
  {
    words[i / BITS := Bits.Without(words[i / BITS], Bits.Mask(i % BITS))]
  }

  lemma MarkedUpdates(words: seq<bv32>, i: int, j: int)
    requires 0 <= i < BITS * |words| && 0 <= j < BITS * |words|
    ensures Marked(Mark(words, i), j) <==> j == i || Marked(words, j)
    ensures Marked(Unmark(words, i), j) <==> j != i && Marked(words, j)
  {
    hide Bits.Mask, Bits.Has, Bits.With, Bits.Without;
    if j / BITS == i / BITS {
      Bits.BitUpdates(words[i / BITS], i % BITS, j % BITS);
    }
  }

  /** The least channel from `i` on whose bit is clear, or the number of channels. */
  function FirstUnmarked(words: seq<bv32>, i: int): (r: int)
    requires |words| == INITIAL_WORDS && 0 <= i <= CHANNELS_PER_CELL
    ensures i <= r <= CHANNELS_PER_CELL
    ensures forall k :: i <= k < r ==> Marked(words, k)
    ensures r < CHANNELS_PER_CELL ==> r / BITS < INITIAL_WORDS && !Marked(words, r)
    decreases CHANNELS_PER_CELL - i
  {
    if i == CHANNELS_PER_CELL || !Marked(words, i) then i else FirstUnmarked(words, i + 1)
  }

  // ---------- the list ----------

  class Channel {
    const channelId: int
    var next: Channel?
    var prev: Channel?

    constructor (id: int, prev: Channel?)
      ensures channelId == id && this.next == null && this.prev == prev
    {
      channelId, this.next, this.prev := id, null, prev;
    }
  }

  function IdSet(list: seq<Channel>): set<int> {
    set k | 0 <= k < |list| :: list[k].channelId
  }

  predicate InRange(list: seq<Channel>) {
    forall k :: 0 <= k < |list| ==> 0 <= list[k].channelId < CHANNELS_PER_CELL
  }

  lemma DropKeeps(list: seq<Channel>, d: int)
    requires DistinctIds(list) && InRange(list) && 0 <= d < |list|
    ensures DistinctIds(list[..d] + list[d + 1..]) && InRange(list[..d] + list[d + 1..])
    ensures forall c <- list[..d] + list[d + 1..] :: c in list
  {
  }

  lemma InIdSet(list: seq<Channel>, i: int)
    ensures i in IdSet(list) <==> exists k :: 0 <= k < |list| && list[k].channelId == i
  {
  }

  lemma IdSetCons(c: Channel, list: seq<Channel>)
    ensures IdSet([c] + list) == IdSet(list) + {c.channelId}
  {
    forall i
      ensures i in IdSet([c] + list) <==> i in IdSet(list) + {c.channelId}
    {
      var all := [c] + list;
      if k :| 0 <= k < |list| && list[k].channelId == i {
        assert all[k + 1].channelId == i;
      }
      assert all[0] == c;
    }
  }

  /** Dropping one element drops its id, when ids are distinct. */
  lemma IdSetDrop(list: seq<Channel>, d: int)
    requires DistinctIds(list) && 0 <= d < |list|
    ensures IdSet(list[..d] + list[d + 1..]) == IdSet(list) - {list[d].channelId}
  {
    var rest := list[..d] + list[d + 1..];
    forall i
      ensures i in IdSet(rest) <==> i in IdSet(list) - {list[d].channelId}
    {
      if k :| 0 <= k < |list| && list[k].channelId == i && k != d {
        assert rest[if k < d then k else k - 1].channelId == i;
      }
      if k :| 0 <= k < |rest| && rest[k].channelId == i {
        assert list[if k < d then k else k + 1].channelId == i;
      }
    }
  }

  /** `channels` heads the list; `prev` leads down it and `next` back up, and the head has no `next`. */
  ghost predicate Linked(head: Channel?, list: seq<Channel>)
    reads list
  {
    && (head == null <==> list == [])
    && (list != [] ==> head == list[0] && list[0].next == null && list[|list| - 1].prev == null)
    && (forall k :: 0 <= k < |list| - 1 ==> list[k].prev == list[k + 1])
    && (forall k :: 1 <= k < |list| ==> list[k].next == list[k - 1])
    && (forall j, k :: 0 <= j < k < |list| ==> list[j] != list[k])
  }

  predicate DistinctIds(list: seq<Channel>) {
    forall j, k :: 0 <= j < k < |list| ==> list[j].channelId != list[k].channelId
  }

  /** The bitmap and a set of ids say the same. */
  ghost predicate SameChannels(words: seq<bv32>, ids: set<int>)
    requires |words| == INITIAL_WORDS
  {
    forall i :: 0 <= i < CHANNELS_PER_CELL ==> (Marked(words, i) <==> i in ids)
  }

  lemma MarkKeeps(words: seq<bv32>, index: int, ids: set<int>)
    requires |words| == INITIAL_WORDS && 0 <= index < CHANNELS_PER_CELL && SameChannels(words, ids)
    ensures SameChannels(Mark(words, index), ids + {index})
    ensures SameChannels(Unmark(words, index), ids - {index})
  {
    forall i | 0 <= i < CHANNELS_PER_CELL
      ensures Marked(Mark(words, index), i) <==> i in ids + {index}
      ensures Marked(Unmark(words, index), i) <==> i in ids - {index}
    {
      MarkedUpdates(words, index, i);
    }
  }

  lemma UnmarkedIsFree(words: seq<bv32>, ids: set<int>)
    requires |words| == INITIAL_WORDS && SameChannels(words, ids)
    ensures var r := FirstUnmarked(words, 0);
            (forall i :: 0 <= i < r ==> i in ids) && (r < CHANNELS_PER_CELL ==> r !in ids)
  {
    hide Bits.Mask, Bits.Has;
  }

  /** The channel part of `lp_state_type`. */
  class ChannelTable {
    const words: array<bv32>
    var channels: Channel?
    ghost var list: seq<Channel>

    ghost predicate Valid()
      reads this, words, list
    {
      && words.Length == ALLOCATED_WORDS
      && Linked(channels, list)
      && DistinctIds(list)
      && InRange(list)
      && SameChannels(words[..INITIAL_WORDS], IdSet(list))
    }

    ghost function Busy(): set<int>
      reads this
    {
      IdSet(list)
    }

    /** INIT: only the words that can hold a channel are set to zero. */
    constructor ()
      ensures Valid() && Busy() == {} && fresh(words) && list == []
      ensures forall k :: 0 <= k < INITIAL_WORDS ==> words[k] == 0
    {
      hide Bits.Mask, Bits.Has;
      words := new bv32[ALLOCATED_WORDS];
      channels := null;
      list := [];
      new;
      for i := 0 to INITIAL_WORDS
        invariant channels == null && list == []
        invariant forall k :: 0 <= k < i ==> words[k] == 0
      {
        words[i] := 0;
      }
      forall i | 0 <= i < CHANNELS_PER_CELL
        ensures !Marked(words[..INITIAL_WORDS], i)
      {
        Bits.NoBits(Bits.Mask(i % BITS));
      }
    }

    /** The least free channel below the number of channels, or -1; found in the initialised words alone. */
    method FindFree() returns (index: int)
      requires Valid()
      ensures index == -1 ==> forall i :: 0 <= i < CHANNELS_PER_CELL ==> i in Busy()
      ensures index != -1 ==> 0 <= index < CHANNELS_PER_CELL && index !in Busy()
      ensures index != -1 ==> forall i :: 0 <= i < index ==> i in Busy()
      ensures var r := FirstUnmarked(words[..INITIAL_WORDS], 0); index == if r == CHANNELS_PER_CELL then -1 else r
    {
      hide Bits.Mask, Bits.Has, Linked, SameChannels, IdSet, DistinctIds, InRange;
      ghost var bits := words[..INITIAL_WORDS];
      UnmarkedIsFree(bits, Busy());
      for i := 0 to CHANNELS_PER_CELL
        invariant FirstUnmarked(bits, 0) == FirstUnmarked(bits, i)
      {
        assert i / BITS < INITIAL_WORDS && words[i / BITS] == bits[i / BITS];
        if !Bits.Has(words[i / BITS], Bits.Mask(i % BITS)) {
          assert !Marked(bits, i);
          return i;
        }
        assert Marked(bits, i);
      }
      return -1;
    }

    /** `allocation`: take the least free channel and put it at the head of the list. Without a free
        channel the program aborts, reported here as `ok == false`. */
    method Allocation() returns (index: int, ok: bool)
      requires Valid()
      modifies this, words, list
      ensures ok <==> exists i :: 0 <= i < CHANNELS_PER_CELL && i !in old(Busy())
      ensures ok ==> Valid() && Busy() == old(Busy()) + {index} && |list| == |old(list)| + 1
      ensures ok ==> 0 <= index < CHANNELS_PER_CELL && index !in old(Busy())
      ensures ok ==> forall i :: 0 <= i < index ==> i in old(Busy())
      ensures ok ==> list[1..] == old(list) && fresh(list[0])
      ensures words[INITIAL_WORDS..] == old(words[INITIAL_WORDS..])
    {
      hide Bits.Mask, Bits.Has, Bits.With, Bits.Without, Linked, SameChannels, Marked;
      ghost var busy := Busy();
      index := FindFree();
      assert Busy() == busy;
      if index == -1 {
        return -1, false;
      }
      ghost var bits := words[..INITIAL_WORDS];
      words[index / BITS] := Bits.With(words[index / BITS], Bits.Mask(index % BITS));
      assert words[..INITIAL_WORDS] == Mark(bits, index);
      MarkKeeps(bits, index, IdSet(list));
      Push(index);
      IdSetCons(list[0], list[1..]);
      assert list == [list[0]] + list[1..];
      ok := true;
    }

    method Push(id: int)
      requires Linked(channels, list)
      modifies this, list
      ensures Linked(channels, list) && |list| == |old(list)| + 1 && list[1..] == old(list)
      ensures fresh(list[0]) && list[0].channelId == id
    {
      var c := new Channel(id, channels);
      if channels != null {
        channels.next := c;
      }
      channels := c;
      list := [c] + list;
    }

    /** `deallocation`: find the channel from the head down, unlink it and clear its bit. A channel that
        is not in the list aborts the program, reported here as `ok == false`. */
    method Deallocation(ch: int) returns (ok: bool)
      requires Valid()
      modifies this, words, list
      ensures ok <==> ch in old(Busy())
      ensures ok ==> Valid() && Busy() == old(Busy()) - {ch} && |list| == |old(list)| - 1
      ensures ok ==> forall c <- list :: c in old(list)
      ensures words[INITIAL_WORDS..] == old(words[INITIAL_WORDS..])
    {
      hide Bits.Mask, Bits.Has, Bits.With, Bits.Without, SameChannels, Marked, IdSet, Linked, DistinctIds;
      var c, d := Find(ch);
      InIdSet(list, ch);
      if c == null {
        return false;
      }
      ghost var bits := words[..INITIAL_WORDS];
      MarkKeeps(bits, ch, IdSet(list));
      IdSetDrop(list, d);
      DropKeeps(list, d);
      Unlink(c, d);
      words[ch / BITS] := Bits.Without(words[ch / BITS], Bits.Mask(ch % BITS));
      assert words[..INITIAL_WORDS] == Unmark(bits, ch);
      ok := true;
    }

    /** Walk down the list to the channel with this id. */
    method Find(ch: int) returns (c: Channel?, ghost d: nat)
      requires Linked(channels, list)
      ensures d <= |list| && c == (if d == |list| then null else list[d])
      ensures d < |list| ==> list[d].channelId == ch
      ensures d == |list| ==> forall k :: 0 <= k < d ==> list[k].channelId != ch
    {
      c := channels;
      d := 0;
      while c != null
        invariant 0 <= d <= |list| && c == (if d == |list| then null else list[d])
        invariant forall k :: 0 <= k < d ==> list[k].channelId != ch
        decreases |list| - d
      {
        if c.channelId == ch {
          break;
        }
        c := c.prev;
        d := d + 1;
      }
    }

    method Unlink(c: Channel, ghost d: int)
      requires Linked(channels, list) && 0 <= d < |list| && list[d] == c
      modifies this, list
      ensures list == old(list)[..d] + old(list)[d + 1..] && Linked(channels, list)
    {
      assert d > 0 ==> c.next == list[d - 1];
      assert d + 1 < |list| ==> c.prev == list[d + 1];
      if c == channels {
        channels := c.prev;
        if channels != null {
          channels.next := null;
        }
      } else {
        if c.next != null {
          c.next.prev := c.prev;
        }
        if c.prev != null {
          c.prev.next := c.next;
        }
      }
      list := list[..d] + list[d + 1..];
    }
  }
}
