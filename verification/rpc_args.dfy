/** Serialised call arguments: the client appends them, the server walks them. */
module RpcArgs {
  import opened Basics
  import opened RingBuffer
  import opened LittleEndian

  /** An argument as the caller gives it. */
  datatype Arg = Arg(argtype: nat, data: seq<byte>)

  /** `MOS_FOURCC('R', 'P', 'C', 'A')` */
  const ARG_MAGIC: nat := 0x52 + 0x100 * 0x50 + 0x1_0000 * 0x43 + 0x100_0000 * 0x41

  /** The size of a packed `rpc_arg_t`: magic, type and size, four bytes each. */
  const HEADER: nat := 12

  const U32: nat := 0x1_0000_0000

  lemma FourBytes()
    ensures Pow256(4) == U32
  {
  }

  /** The size field has 32 bits. */
  function EncodeArg(a: Arg): seq<byte> {
    Encode(ARG_MAGIC, 4) + Encode(a.argtype, 4) + Encode(|a.data| % U32, 4) + a.data
  }

  function EncodeArgs(list: seq<Arg>): seq<byte> {
    if list == [] then [] else EncodeArg(list[0]) + EncodeArgs(list[1..])
  }

  /** Arguments whose number, sizes and types fit their fields. */
  ghost predicate Fitting(list: seq<Arg>) {
    |list| < U32 && forall k :: 0 <= k < |list| ==> |list[k].data| < U32 && list[k].argtype < U32
  }

  lemma {:induction false} ArgsAppend(list: seq<Arg>, more: seq<Arg>)
    ensures EncodeArgs(list + more) == EncodeArgs(list) + EncodeArgs(more)
  {
    if list == [] {
      assert list + more == more;
    } else {
      assert (list + more)[1..] == list[1..] + more;
      ArgsAppend(list[1..], more);
    }
  }

  lemma OneArg(a: Arg)
    ensures EncodeArgs([a]) == EncodeArg(a)
  {
  }

  /** The bytes before argument `k`. */
  function OffsetOf(list: seq<Arg>, k: nat): nat
    requires k <= |list|
  {
    |EncodeArgs(list[..k])|
  }

  lemma NothingBefore(list: seq<Arg>)
    ensures OffsetOf(list, 0) == 0
  {
  }

  /** Reading a header field. */
  function Field(bytes: seq<byte>, at: nat): nat
    requires at + 4 <= |bytes|
  {
    Decode(bytes[at..at + 4])
  }

  /** The bytes at the offset of argument `k` are its encoding. */
  lemma ArgAt(list: seq<Arg>, k: nat)
    requires k < |list|
    ensures var at := OffsetOf(list, k); var e := EncodeArg(list[k]);
            at + |e| <= |EncodeArgs(list)| && EncodeArgs(list)[at..at + |e|] == e && OffsetOf(list, k + 1) == at + |e|
  {
    hide EncodeArg, EncodeArgs;
    var before, rest := list[..k], list[k + 1..];
    assert list == before + ([list[k]] + rest);
    ArgsAppend(before, [list[k]] + rest);
    ArgsAppend([list[k]], rest);
    assert list[..k + 1] == before + [list[k]];
    ArgsAppend(before, [list[k]]);
    OneArg(list[k]);
    Middle(EncodeArgs(before), EncodeArg(list[k]), EncodeArgs(rest));
  }

  lemma Middle(x: seq<byte>, e: seq<byte>, y: seq<byte>)
    ensures (x + (e + y))[|x|..|x| + |e|] == e
  {
  }

  lemma Inside(b: seq<byte>, at: nat, e: seq<byte>, i: nat, j: nat)
    requires at + |e| <= |b| && b[at..at + |e|] == e && i <= j <= |e|
    ensures b[at + i..at + j] == e[i..j]
  {
    forall x | 0 <= x < j - i ensures b[at + i..at + j][x] == e[i..j][x] {
      assert b[at..at + |e|][i + x] == b[at + i + x];
    }
  }

  /** What the header of argument `k` says. */
  lemma HeaderAt(list: seq<Arg>, k: nat)
    requires k < |list| && list[k].argtype < U32
    ensures var b := EncodeArgs(list); var at := OffsetOf(list, k);
            && at + HEADER + |list[k].data| <= |b|
            && Field(b, at) == ARG_MAGIC && Field(b, at + 4) == list[k].argtype &&
               Field(b, at + 8) == |list[k].data| % U32
            && b[at + HEADER..at + HEADER + |list[k].data|] == list[k].data
            && OffsetOf(list, k + 1) == at + HEADER + |list[k].data|
  {
    hide Encode, Decode, Pow256;
    ArgAt(list, k);
    var b, at, e := EncodeArgs(list), OffsetOf(list, k), EncodeArg(list[k]);
    Inside(b, at, e, 0, 4);
    Inside(b, at, e, 4, 8);
    Inside(b, at, e, 8, 12);
    Inside(b, at, e, HEADER, |e|);
    assert e[0..4] == Encode(ARG_MAGIC, 4) && e[4..8] == Encode(list[k].argtype, 4);
    assert e[8..12] == Encode(|list[k].data| % U32, 4) && e[HEADER..|e|] == list[k].data;
    FourBytes();
    DecodeEncode(ARG_MAGIC, 4);
    DecodeEncode(list[k].argtype, 4);
    DecodeEncode(|list[k].data| % U32, 4);
  }

  /** The size that reaches the server is the one sent exactly when it fits 32 bits. */
  lemma SizeSurvives(list: seq<Arg>, k: nat)
    requires k < |list| && list[k].argtype < U32
    ensures OffsetOf(list, k) + HEADER <= |EncodeArgs(list)|
    ensures Field(EncodeArgs(list), OffsetOf(list, k) + 8) == |list[k].data| <==> |list[k].data| < U32
  {
    hide EncodeArgs, Field, OffsetOf;
    HeaderAt(list, k);
  }

  /** The client's side of a call. */
  class Call {
    var argsCount: nat
    var args: seq<byte>
    ghost var list: seq<Arg>

    ghost predicate Valid()
      reads this
    {
      args == EncodeArgs(list) && argsCount == |list| % U32
    }

    /** `rpc_call_create` */
    constructor ()
      ensures Valid() && list == []
    {
      argsCount, args, list := 0, [], [];
    }

    /** `rpc_call_arg` */
    method Add(argtype: nat, data: seq<byte>)
      requires Valid()
      modifies this
      ensures Valid() && list == old(list) + [Arg(argtype, data)]
    {
      hide EncodeArgs, Encode;
      var arg := Arg(argtype, data);
      ArgsAppend(list, [arg]);
      OneArg(arg);
      argsCount := (argsCount + 1) % U32;
      args := args + (Encode(ARG_MAGIC, 4) + Encode(argtype, 4) + Encode(|data| % U32, 4) + data);
      list := list + [arg];
    }
  }

  /** The server's side: the bytes that arrived, and the position of the iterator. */
  class Context {
    const argsCount: nat
    const args: seq<byte>
    var nextIndex: nat
    var nextByte: nat

    /** The iterator stands before argument `nextIndex` of `list`. */
    ghost predicate At(list: seq<Arg>)
      reads this
    {
      && argsCount == |list| && args == EncodeArgs(list) && Fitting(list)
      && nextIndex <= |list| && nextByte == OffsetOf(list, nextIndex)
    }

    constructor (argsCount: nat, args: seq<byte>, ghost list: seq<Arg>)
      requires argsCount == |list| && args == EncodeArgs(list) && Fitting(list)
      ensures At(list) && nextIndex == 0
    {
      this.argsCount, this.args := argsCount, args;
      nextIndex, nextByte := 0, 0;
    }

    /** `rpc_arg_next`: the arguments come back in order, then nothing. */
    method Next(ghost list: seq<Arg>) returns (r: Option<seq<byte>>)
      requires At(list)
      modifies this
      ensures At(list)
      ensures if old(nextIndex) < |list| then r == Some(list[old(nextIndex)].data) && nextIndex == old(nextIndex) + 1
              else r.None? && nextIndex == old(nextIndex)
    {
      hide EncodeArgs, Field, OffsetOf;
      if nextIndex >= argsCount { return None; }
      HeaderAt(list, nextIndex);
      var at := nextByte;
      if Field(args, at) != ARG_MAGIC { return None; }
      var size := Field(args, at + 8);
      nextIndex := nextIndex + 1;
      nextByte := nextByte + HEADER + size;
      return Some(args[at + HEADER..at + HEADER + size]);
    }

    /** `rpc_arg`: the argument with a given index, found by walking from the start. */
    method Get(i: nat, argtype: nat, ghost list: seq<Arg>) returns (r: Lookup)
      requires At(list)
      ensures r == if i >= |list| then PastEnd else if list[i].argtype == argtype then Found(list[i].data) else Mismatch
    {
      hide EncodeArgs, Field, OffsetOf;
      var ptr := 0;
      NothingBefore(list);
      EndOfArgs(list);
      for k := 0 to i
        invariant k <= |list| && ptr == OffsetOf(list, k)
      {
        if ptr + HEADER > |args| {
          if k < |list| { HeaderAt(list, k); }
          return PastEnd;
        }
        StillInside(list, k);
        HeaderAt(list, k);
        ptr := ptr + HEADER + Field(args, ptr + 8);
      }
      if i < |list| { HeaderAt(list, i); }
      if ptr + HEADER > |args| { return PastEnd; }
      StillInside(list, i);
      if Field(args, ptr) != ARG_MAGIC || Field(args, ptr + 4) != argtype { return Mismatch; }
      return Found(args[ptr + HEADER..ptr + HEADER + Field(args, ptr + 8)]);
    }
  }

  /** `PastEnd`: the source goes on reading behind the request. */
  datatype Lookup = Found(data: seq<byte>) | Mismatch | PastEnd

  /** The offsets end where the bytes do. */
  lemma {:induction false} EndOfArgs(list: seq<Arg>)
    ensures OffsetOf(list, |list|) == |EncodeArgs(list)|
  {
    assert list[..|list|] == list;
  }

  lemma StillInside(list: seq<Arg>, k: nat)
    requires k <= |list| && OffsetOf(list, k) + HEADER <= |EncodeArgs(list)|
    ensures k < |list|
  {
    EndOfArgs(list);
  }

  /** A call built from a list of arguments hands the same list to the server, in order and by index. */
  method SendAndWalk(list: seq<Arg>) returns (inOrder: seq<seq<byte>>, byIndex: seq<Lookup>)
    requires Fitting(list)
    ensures |inOrder| == |byIndex| == |list|
    ensures forall k :: 0 <= k < |list| ==> inOrder[k] == list[k].data && byIndex[k] == Found(list[k].data)
  {
    hide EncodeArgs, EncodeArg;
    var call := new Call();
    for k := 0 to |list|
      invariant call.Valid() && call.list == list[..k]
      invariant fresh(call)
    {
      call.Add(list[k].argtype, list[k].data);
      assert list[..k + 1] == list[..k] + [Arg(list[k].argtype, list[k].data)];
    }
    assert list[..|list|] == list;
    var context := new Context(call.argsCount, call.args, list);
    inOrder, byIndex := [], [];
    for k := 0 to |list|
      invariant context.At(list) && context.nextIndex == k && fresh(context)
      invariant |inOrder| == |byIndex| == k
      invariant forall j :: 0 <= j < k ==> inOrder[j] == list[j].data && byIndex[j] == Found(list[j].data)
    {
      var next := context.Next(list);
      var again := context.Get(k, list[k].argtype, list);
      inOrder := inOrder + [next.value];
      byIndex := byIndex + [again];
    }
  }
}
