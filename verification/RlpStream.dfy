/**
 The one-pass stream writer. Nested lists are written straight into one buffer: opening a
 list reserves one byte, and finishing it goes back and puts the length in, making room by
 rotating the tail of the buffer when the length does not fit the reserved byte. The writer
 is proved against a stack of partly built lists.
 */
module RlpStream {
  import opened Bytes
  import opened RlpFormat
  import opened Wrappers

  /** What the writer keeps of an open list: where its payload starts, items so far, items expected. */
  datatype ListInfo = ListInfo(position: nat, current: nat, max: Option<nat>)

  // ---------------------------------------------- what a writer stands for

  /** An open list: the bytes of its items so far, how many items they count as, how many are expected. */
  datatype Frame = Frame(payload: bytes, count: nat, max: Option<nat>)

  /** Bytes finished at the top level, and the open lists, innermost last. */
  datatype Progress = Progress(done: bytes, frames: seq<Frame>)

  function Front<T>(s: seq<T>): seq<T>
    requires s != []
  {
    s[..|s| - 1]
  }

  function Last<T>(s: seq<T>): T
    requires s != []
  {
    s[|s| - 1]
  }

  /** A list with this payload. */
  function Prefixed(payload: bytes): bytes { Header(LIST_OFFSET, |payload|) + payload }

  /** Bytes that count as `n` items arrive in the innermost list; a list that has all its items
      becomes an item of the next. */
  function AddRaw(p: Progress, raw: bytes, n: nat): Progress
    decreases |p.frames|
  {
    if p.frames == [] then p.(done := p.done + raw)
    else
      var f := Last(p.frames);
      var f' := Frame(f.payload + raw, f.count + n, f.max);
      if f.max == Some(f'.count) then AddRaw(p.(frames := Front(p.frames)), Prefixed(f'.payload), 1)
      else p.(frames := Front(p.frames) + [f'])
  }

  function AddAll(p: Progress, ts: seq<Item>): Progress { AddRaw(p, EncodeAll(ts), |ts|) }

  function FrameOf(items: seq<Item>, max: Option<nat>): Frame { Frame(EncodeAll(items), |items|, max) }

  function Begin(p: Progress, max: Option<nat>): Progress {
    if max == Some(0) then AddAll(p, [List([])]) else p.(frames := p.frames + [FrameOf([], max)])
  }

  /** Bytes in the buffer: finished ones, and for each open list a reserved byte and its payload. */
  function Layout(done: bytes, frames: seq<Frame>): bytes
    decreases |frames|
  {
    if frames == [] then done
    else Layout(done, Front(frames)) + [0] + Last(frames).payload
  }

  ghost predicate Represents(lists: seq<ListInfo>, p: Progress) {
    && |lists| == |p.frames|
    && forall i :: 0 <= i < |lists| ==>
         && lists[i].current == p.frames[i].count
         && lists[i].max == p.frames[i].max
         && (lists[i].max.Some? ==> lists[i].current < lists[i].max.value)
         && lists[i].position == |Layout(p.done, p.frames[..i])| + 1
  }

  /** As `Represents`, but the innermost list may have reached its size. */
  ghost predicate RepresentsButLast(lists: seq<ListInfo>, p: Progress) {
    && |lists| == |p.frames|
    && forall i :: 0 <= i < |lists| ==>
         && lists[i].current == p.frames[i].count
         && lists[i].max == p.frames[i].max
         && (lists[i].max.Some? && i < |lists| - 1 ==> lists[i].current < lists[i].max.value)
         && lists[i].position == |Layout(p.done, p.frames[..i])| + 1
  }

  function Put(p: Progress, raw: bytes, n: nat): Progress
    requires p.frames != []
  {
    var f := Last(p.frames);
    p.(frames := Front(p.frames) + [Frame(f.payload + raw, f.count + n, f.max)])
  }

  /** Bytes after the layout belong to the innermost list. */
  lemma Regroup(base: bytes, p: Progress, raw: bytes, n: nat)
    requires p.frames != []
    ensures base + Layout(p.done, p.frames) + raw == base + Layout(p.done, Put(p, raw, n).frames)
  {
    var frames' := Put(p, raw, n).frames;
    assert Front(frames') == Front(p.frames);
    assert Layout(p.done, frames') == Layout(p.done, Front(p.frames)) + [0] + (Last(p.frames).payload + raw);
  }

  function Count(lists: seq<ListInfo>, k: nat): seq<ListInfo>
    requires lists != []
  {
    var x := Last(lists);
    lists[|lists| - 1 := x.(current := x.current + k)]
  }

  lemma CountItems(lists: seq<ListInfo>, p: Progress, raw: bytes, n: nat)
    requires lists != [] && Represents(lists, p)
    requires Last(lists).max.Some? ==> Last(lists).current + n <= Last(lists).max.value
    ensures RepresentsButLast(Count(lists, n), Put(p, raw, n))
    ensures Last(lists).max != Some(Last(lists).current + n) ==> Represents(Count(lists, n), Put(p, raw, n))
  {
    ChangedLast(p.frames, Put(p, raw, n).frames);
  }

  lemma PopFrame(lists: seq<ListInfo>, p: Progress)
    requires lists != [] && RepresentsButLast(lists, p)
    ensures Represents(Front(lists), p.(frames := Front(p.frames)))
    ensures Last(lists).position == |Layout(p.done, Front(p.frames))| + 1
  {
    var n := |p.frames| - 1;
    assert Front(p.frames) == p.frames[..n];
    Prefixes(p.frames, n);
  }

  /** At the top level the bytes after the layout are finished. */
  lemma AddTop(base: bytes, p: Progress, raw: bytes, n: nat)
    requires p.frames == []
    ensures var q := AddRaw(p, raw, n);
      q.frames == [] && base + Layout(p.done, p.frames) + raw == base + Layout(q.done, q.frames) + []
  {
  }

  lemma LayoutTop(base: bytes, p: Progress)
    requires p.frames != []
    ensures base + Layout(p.done, p.frames) == (base + Layout(p.done, Front(p.frames))) + [0] + Last(p.frames).payload
  {
  }

  lemma PushFrame(lists: seq<ListInfo>, p: Progress, max: Option<nat>)
    requires Represents(lists, p) && max != Some(0)
    ensures Represents(lists + [ListInfo(|Layout(p.done, p.frames)| + 1, 0, max)], Begin(p, max))
    ensures Layout(p.done, Begin(p, max).frames) == Layout(p.done, p.frames) + [0]
  {
    var frames' := Begin(p, max).frames;
    assert Front(frames') == p.frames;
    assert EncodeAll([]) == [];
    Prefixes(frames', |p.frames|);
    assert frames'[..|p.frames|] == p.frames;
  }

  /** The reserved byte replaced by the length prefix. */
  lemma PrefixedList(outer: bytes, payload: bytes)
    ensures var before := outer + [0] + payload;
      before[..|outer|] + Header(LIST_OFFSET, |payload|) + before[|outer| + 1..] == outer + Prefixed(payload)
  {
    var before := outer + [0] + payload;
    assert before[..|outer|] == outer && before[|outer| + 1..] == payload;
  }

  lemma ListOfItems(items: seq<Item>)
    ensures EncodeAll([List(items)]) == Prefixed(EncodeAll(items))
  {
    EncodeAllOne(List(items));
  }

  /** The i-th child of a list that was begun on `p`. */
  lemma AddChild(p: Progress, items: seq<Item>, i: nat)
    requires i < |items|
    ensures AddAll(p.(frames := p.frames + [FrameOf(items[..i], Some(|items|))]), [items[i]]) ==
      if i + 1 < |items| then p.(frames := p.frames + [FrameOf(items[..i + 1], Some(|items|))])
        else AddAll(p, [List(items)])
  {
    hide EncodeAll, Prefixed;
    var f := FrameOf(items[..i], Some(|items|));
    var q := p.(frames := p.frames + [f]);
    assert Front(q.frames) == p.frames && Last(q.frames) == f;
    assert items[..i] + [items[i]] == items[..i + 1];
    EncodeAllConcat(items[..i], [items[i]]);
    assert q.(frames := Front(q.frames)) == p;
    AddOne(q, EncodeAll([items[i]]), 1);
    if i + 1 == |items| {
      assert items[..i + 1] == items;
      ListOfItems(items);
    }
  }

  /** One unfolding of `AddRaw`. */
  lemma AddOne(p: Progress, raw: bytes, n: nat)
    requires p.frames != []
    ensures var f := Last(p.frames);
      AddRaw(p, raw, n) == if f.max == Some(f.count + n) then AddRaw(p.(frames := Front(p.frames)),
        Prefixed(f.payload + raw), 1)
                           else Put(p, raw, n)
  {
  }

  // ------------------------------------------------------- lengths in 4 bytes

  function ToBe4(size: nat): bytes
    requires size < U32
  {
    [size / 0x100_0000, size / 0x1_0000 % 256, size / 0x100 % 256, size % 256]
  }

  /** Leading zero bits of a 32-bit number, in whole bytes. */
  function LeadingEmptyBytes(size: nat): nat
    requires size < U32
  {
    if size == 0 then 4 else if size < 0x100 then 3 else if size < 0x1_0000 then 2 else if size < 0x100_0000 then 1
      else 0
  }

  lemma Be4IsBigEndian(size: nat)
    requires size < U32
    ensures ToBe4(size)[LeadingEmptyBytes(size)..] == BigEndian(size)
  {
    var a, b, c := size / 0x100, size / 0x1_0000, size / 0x100_0000;
    assert a / 256 == b && b / 256 == c && c < 256;
    assert BigEndian(c) == if c == 0 then [] else [c];
    assert BigEndian(b) == if b == 0 then [] else BigEndian(c) + [b % 256];
    assert BigEndian(a) == if a == 0 then [] else BigEndian(b) + [a % 256];
  }

  function RotateRight<T>(s: seq<T>, k: nat): seq<T>
    requires k <= |s|
  {
    s[|s| - k..] + s[..|s| - k]
  }

  class RlpStream {
    var unfinishedLists: seq<ListInfo>
    const startPos: nat
    var buffer: bytes
    var finishedList: bool

    ghost const base: bytes
    ghost var progress: Progress

    /** The buffer holds the progress, and after it bytes not yet noted as items. */
    ghost predicate Holds(extra: bytes)
      reads this
    {
      && startPos == |base|
      && buffer == base + Layout(progress.done, progress.frames) + extra
      && Represents(unfinishedLists, progress)
    }

    ghost predicate Valid()
      reads this
    {
      Holds([])
    }

    constructor (buf: bytes)
      ensures Valid() && progress == Progress([], []) && base == buf && !finishedList
    {
      unfinishedLists := [];
      startPos := |buf|;
      buffer := buf;
      finishedList := false;
      base := buf;
      progress := Progress([], []);
    }

    function TotalWritten(): nat
      requires startPos <= |buffer|
      reads this
    {
      |buffer| - startPos
    }

    // ---------------------------------------------------------- encoder

    method InsertSize(size: nat, position: nat) returns (sizeBytes: nat)
      requires startPos + position <= |buffer|
      modifies this`buffer
      ensures var s := BigEndian(size % U32); var at := startPos + position;
        buffer == old(buffer)[..at] + s + old(buffer)[at..] && sizeBytes == |s| <= 4
    {
      var size32 := size % U32;
      var leading := LeadingEmptyBytes(size32);
      sizeBytes := 4 - leading;
      Be4IsBigEndian(size32);
      ghost var s := BigEndian(size32);
      var at := startPos + position;
      buffer := buffer + ToBe4(size32)[leading..];
      assert buffer[at..] == old(buffer)[at..] + s;
      assert RotateRight(buffer[at..], sizeBytes) == s + old(buffer)[at..];
      assert buffer[..at] == old(buffer)[..at];
      buffer := buffer[..at] + RotateRight(buffer[at..], sizeBytes);
    }

    /** The reserved byte before `pos` becomes the list's length prefix. */
    method InsertListPayload(len: nat, pos: nat)
      requires pos >= 1 && startPos + pos <= |buffer|
      modifies this`buffer
      ensures var at := startPos + pos;
        buffer == old(buffer)[..at - 1] + Header(LIST_OFFSET, len) + old(buffer)[at..]
    {
      var at := startPos + pos;
      if len <= 55 {
        buffer := buffer[at - 1 := 0xc0 + len];
      } else {
        var inserted := InsertSize(len, pos);
        buffer := buffer[at - 1 := 0xf7 + inserted];
      }
    }

    /** A byte string: itself, or its length prefix and the bytes. */
    method EncodeIter(value: bytes)
      requires startPos <= |buffer|
      modifies this`buffer
      ensures buffer == old(buffer) + EncodeData(value)
    {
      if |value| == 0 {
        buffer := buffer + [0x80];
      } else if |value| <= 55 {
        var first := value[0];
        if |value| == 1 && first < 0x80 {
          buffer := buffer + [first];
        } else {
          buffer := buffer + [0x80 + |value|];
          buffer := buffer + [first];
          buffer := buffer + value[1..];
          assert value == [first] + value[1..];
        }
      } else {
        EncodeLong(value);
      }
    }

    method EncodeLong(value: bytes)
      requires startPos <= |buffer| && |value| > 55
      modifies this`buffer
      ensures buffer == old(buffer) + EncodeData(value)
    {
      ghost var before := buffer;
      ghost var s := BigEndian(|value| % U32);
      buffer := buffer + [0];
      var position := |buffer| - startPos;
      var inserted := InsertSize(|value|, position);
      assert buffer == before + [0] + s;
      SetReserved(before, s, 0xb7 + inserted);
      buffer := buffer[startPos + position - 1 := 0xb7 + inserted];
      buffer := buffer + value;
      assert buffer == before + (([0xb7 + inserted] + s) + value);
    }

    // ------------------------------------------------------------ lists

    /** Bytes were written that count as `inserted` items: count them, and finish the list, and the
        lists around it, when full. */
    method NoteAppended(inserted: nat, ghost raw: bytes)
      requires Holds(raw)
      requires unfinishedLists != [] && Last(unfinishedLists).max.Some? ==>
        Last(unfinishedLists).current + inserted <= Last(unfinishedLists).max.value
      modifies this
      ensures Valid() && progress == AddRaw(old(progress), raw, inserted)
      ensures finishedList == if old(unfinishedLists) == [] then old(finishedList)
        else Last(old(unfinishedLists)).max == Some(Last(old(unfinishedLists)).current + inserted)
      decreases |unfinishedLists|
    {
      hide Prefixed, Layout, AddRaw, RepresentsButLast;
      ghost var p := progress;
      if unfinishedLists == [] {
        AddTop(base, p, raw, inserted);
        progress := AddRaw(p, raw, inserted);
        return;
      }
      var back := |unfinishedLists| - 1;
      var x := unfinishedLists[back];
      x := x.(current := x.current + inserted);
      unfinishedLists := unfinishedLists[back := x];
      var shouldFinish := x.max.Some? && x.current == x.max.value;
      CountItems(old(unfinishedLists), p, raw, inserted);
      Regroup(base, p, raw, inserted);
      AddOne(p, raw, inserted);
      progress := Put(p, raw, inserted);
      assert Front(progress.frames) == Front(p.frames);
      if shouldFinish {
        ghost var payload := Last(progress.frames).payload;
        Finish();
        NoteAppended(1, Prefixed(payload));
      }
      finishedList := shouldFinish;
    }

    /** Takes the innermost list off the stack and puts its length prefix in place. */
    method Finish()
      requires startPos == |base| && buffer == base + Layout(progress.done, progress.frames)
      requires unfinishedLists != [] && |progress.frames| == |unfinishedLists|
        && RepresentsButLast(unfinishedLists, progress)
      modifies this`buffer, this`unfinishedLists, this`progress
      ensures unfinishedLists == Front(old(unfinishedLists))
      ensures progress == old(progress).(frames := Front(old(progress).frames))
      ensures Holds(Prefixed(Last(old(progress).frames).payload))
    {
      hide Header, Layout, Represents, RepresentsButLast, Prefixed;
      ghost var p := progress;
      ghost var payload := Last(p.frames).payload;
      LayoutTop(base, p);
      var x := Last(unfinishedLists);
      PopFrame(unfinishedLists, p);
      unfinishedLists := Front(unfinishedLists);
      progress := p.(frames := Front(p.frames));
      var len := TotalWritten() - x.position;
      InsertListPayload(len, x.position);
      ghost var outer := base + Layout(progress.done, progress.frames);
      assert len == |payload| && startPos + x.position == |outer| + 1;
      PrefixedList(outer, payload);
    }

    method BeginList(len: nat)
      requires Valid()
      modifies this
      ensures Valid() && progress == Begin(old(progress), Some(len))
      ensures finishedList == (len == 0)
    {
      finishedList := false;
      if len == 0 {
        buffer := buffer + [0xc0];
        EncodeAllOne(List([]));
        NoteAppended(1, EncodeAll([List([])]));
        finishedList := true;
      } else {
        Open(Some(len));
      }
    }

    method BeginUnboundedList()
      requires Valid()
      modifies this
      ensures Valid() && progress == Begin(old(progress), None) && !finishedList
    {
      finishedList := false;
      Open(None);
    }

    /** Reserves the byte of the length prefix and remembers where the payload starts. */
    method Open(max: Option<nat>)
      requires Valid() && max != Some(0)
      modifies this`buffer, this`unfinishedLists, this`progress
      ensures Valid() && progress == Begin(old(progress), max)
    {
      hide Layout, Represents, AddAll;
      ghost var p := progress;
      buffer := buffer + [0];
      var position := TotalWritten();
      PushFrame(unfinishedLists, p, max);
      unfinishedLists := unfinishedLists + [ListInfo(position, 0, max)];
      progress := Begin(p, max);
    }

    method FinalizeUnboundedList()
      requires Valid() && unfinishedLists != [] && Last(unfinishedLists).max.None?
      modifies this
      ensures Valid() && finishedList
      ensures var p := old(progress); progress == AddRaw(p.(frames := Front(p.frames)),
        Prefixed(Last(p.frames).payload), 1)
    {
      ghost var payload := Last(progress.frames).payload;
      Finish();
      NoteAppended(1, Prefixed(payload));
      finishedList := true;
    }

    // ------------------------------------------------------------ values

    /** Any bytes, counted as the caller says. */
    method AppendRaw(raw: bytes, itemCount: nat)
      requires Valid()
      requires unfinishedLists != [] && Last(unfinishedLists).max.Some? ==>
        Last(unfinishedLists).current + itemCount <= Last(unfinishedLists).max.value
      modifies this
      ensures Valid() && progress == AddRaw(old(progress), raw, itemCount)
    {
      buffer := buffer + raw;
      NoteAppended(itemCount, raw);
    }

    method AppendNull()
      requires Valid()
      modifies this
      ensures Valid() && progress == AddAll(old(progress), [Null])
    {
      buffer := buffer + [0xf8];
      buffer := buffer + [0x00];
      EncodeAllOne(Null);
      NoteAppended(1, EncodeAll([Null]));
    }

    /** The value writes itself. Lists count themselves, through the lists' own bookkeeping; what
        is not a list only writes its bytes. */
    method RlpAppend(value: Item)
      requires Valid() && !finishedList
      modifies this
      ensures value.List? ==> Valid() && progress == AddAll(old(progress), [value]) && finishedList
      ensures !value.List? ==> Holds(Encode(value)) && progress == old(progress) && !finishedList
      decreases value, 0
    {
      match value
      case Null =>
        buffer := buffer + [0xf8];
        buffer := buffer + [0x00];
      case Data(b) => EncodeIter(b);
      case List(items) =>
        BeginList(|items|);
        ghost var p := old(progress);
        for i := 0 to |items|
          invariant Valid()
          invariant i < |items| ==> progress == p.(frames := p.frames + [FrameOf(items[..i], Some(|items|))])
          invariant i == |items| ==> progress == AddAll(p, [value]) && finishedList
        {
          assert Last(unfinishedLists).current == i;
          Append(items[i]);
          AddChild(p, items, i);
        }
    }

    /** Appends one item: a list has counted itself once already, anything else is counted here. */
    method Append(value: Item)
      requires Valid()
      modifies this
      ensures Valid() && progress == AddAll(old(progress), [value])
      ensures var lists := old(unfinishedLists);
        lists != [] && Last(lists).max == Some(Last(lists).current + 1) ==> finishedList
      decreases value, 1
    {
      finishedList := false;
      RlpAppend(value);
      if !finishedList {
        EncodeAllOne(value);
        NoteAppended(1, Encode(value));
      }
    }

    /** Any sequence of calls, in any order: single items never overfill a list. */
    method Drive(calls: seq<StreamCall>)
      requires Valid()
      modifies this
      ensures Valid() && progress == Play(old(progress), calls)
    {
      for i := 0 to |calls|
        invariant Valid() && progress == Play(old(progress), calls[..i])
      {
        assert Front(calls[..i + 1]) == calls[..i];
        match calls[i] {
          case BeginCall(len) => BeginList(len);
          case AppendCall(b) => Append(Data(b));
          case NullCall => AppendNull();
        }
      }
      assert calls[..|calls|] == calls;
    }

    method IsFinished() returns (b: bool)
      requires Valid()
      ensures b <==> progress.frames == []
    {
      b := unfinishedLists == [];
    }

    /** The bytes; refused while a list is open. */
    method Out(ghost extra: bytes) returns (r: bytes)
      requires Holds(extra) && progress.frames == []
      ensures r == base + progress.done + extra
    {
      r := buffer;
    }
  }

  lemma SetReserved(before: bytes, s: bytes, x: byte)
    ensures (before + [0] + s)[|before| := x] == before + ([x] + s)
  {
  }

  lemma Prefixes<T>(s: seq<T>, n: nat)
    requires n <= |s|
    ensures forall i :: 0 <= i <= n ==> s[..n][..i] == s[..i]
  {
  }

  lemma ChangedLast(s: seq<Frame>, t: seq<Frame>)
    requires s != [] && |s| == |t| && Front(s) == Front(t)
    ensures forall i :: 0 <= i < |s| ==> s[..i] == t[..i]
  {
    Prefixes(s, |s| - 1);
    Prefixes(t, |s| - 1);
  }

  // ----------------------------------------------------- trees, call by call

  datatype StreamCall = BeginCall(len: nat) | AppendCall(data: bytes) | NullCall

  function PlayOne(p: Progress, call: StreamCall): Progress {
    match call
    case BeginCall(len) => Begin(p, Some(len))
    case AppendCall(b) => AddAll(p, [Data(b)])
    case NullCall => AddAll(p, [Null])
  }

  function Play(p: Progress, calls: seq<StreamCall>): Progress
    decreases |calls|
  {
    if calls == [] then p else PlayOne(Play(p, Front(calls)), Last(calls))
  }

  /** The calls that write a tree in pre-order. */
  function Preorder(t: Item): seq<StreamCall>
    decreases t, 0
  {
    match t
    case Null => [NullCall]
    case Data(b) => [AppendCall(b)]
    case List(ts) => [BeginCall(|ts|)] + PreorderAll(ts)
  }

  function PreorderAll(ts: seq<Item>): seq<StreamCall>
    decreases ts, 1
  {
    if ts == [] then [] else Preorder(ts[0]) + PreorderAll(ts[1..])
  }

  lemma {:induction false} PlayConcat(p: Progress, a: seq<StreamCall>, b: seq<StreamCall>)
    ensures Play(p, a + b) == Play(Play(p, a), b)
    decreases |b|
  {
    hide PlayOne;
    if b == [] {
      assert a + b == a;
    } else {
      PlayConcat(p, a, Front(b));
      assert Front(a + b) == a + Front(b);
    }
  }

  /** In whatever state the writer is, the pre-order calls of a tree add exactly that tree: every
      nested list is counted once in the list around it. */
  lemma {:induction false} PreorderAdds(p: Progress, t: Item)
    ensures Play(p, Preorder(t)) == AddAll(p, [t])
    decreases t, 0
  {
    assert forall c: StreamCall :: Play(p, [c]) == PlayOne(p, c) by {
      forall c: StreamCall ensures Play(p, [c]) == PlayOne(p, c) { assert Front([c]) == []; }
    }
    if t.List? {
      var q := Begin(p, Some(|t.items|));
      PlayConcat(p, [BeginCall(|t.items|)], PreorderAll(t.items));
      if t.items != [] {
        assert t.items[..0] == [] && t.items[0..] == t.items;
        ChildrenAdd(p, t.items, 0);
      }
    }
  }

  lemma {:induction false} ChildrenAdd(p: Progress, items: seq<Item>, i: nat)
    requires i < |items|
    ensures Play(p.(frames := p.frames + [FrameOf(items[..i], Some(|items|))]), PreorderAll(items[i..])) ==
      AddAll(p, [List(items)])
    decreases items, 1, |items| - i
  {
    var q := p.(frames := p.frames + [FrameOf(items[..i], Some(|items|))]);
    assert items[i..][0] == items[i] && items[i..][1..] == items[i + 1..];
    PlayConcat(q, Preorder(items[i]), PreorderAll(items[i + 1..]));
    PreorderAdds(q, items[i]);
    AddChild(p, items, i);
    if i + 1 < |items| { ChildrenAdd(p, items, i + 1); }
  }

  /** The pre-order calls on a fresh writer: no list left open, and exactly the tree's encoding. */
  method WriteTree(t: Item) returns (r: bytes)
    ensures r == Encode(t)
  {
    var stream := new RlpStream([]);
    stream.Drive(Preorder(t));
    PreorderAdds(Progress([], []), t);
    r := stream.Out([]);
    EncodeAllOne(t);
  }

  /** `rlp::encode`: a value writes itself into a fresh writer. */
  method RlpBytes(value: Item) returns (r: bytes)
    ensures r == Encode(value)
  {
    var stream := new RlpStream([]);
    stream.RlpAppend(value);
    EncodeAllOne(value);
    r := stream.Out(if value.List? then [] else Encode(value));
  }
}
