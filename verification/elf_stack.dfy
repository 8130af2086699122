/**
  The start-up stack of a program: argc, argv, envp and the auxiliary vector
  with all strings, laid out as section 3.4.1 of the System V AMD64 psABI says.
 */
module ElfStack {
  import opened Rounding

  /** A character of a string, or one of the eight fragments of a word. */
  datatype Cell = Char(c: char) | Fragment(w: int, k: nat)

  type Memory = int -> Cell

  datatype Aux = Aux(kind: int, value: int)

  const AT_NULL: int := 0
  const AT_EXECFN: int := 31
  const AUXV_VEC_SIZE: nat := 16
  const NUL: char := 0 as char

  datatype Info = Info(invocation: string, argv: seq<string>, envp: seq<string>, auxv: seq<Aux>)

  // ---------------------------------------------------------------- encodings

  function Word(w: int): seq<Cell> {
    [Fragment(w, 0), Fragment(w, 1), Fragment(w, 2), Fragment(w, 3), Fragment(w, 4), Fragment(w, 5), Fragment(w, 6),
        Fragment(w, 7)]
  }

  function Words(ws: seq<int>): (r: seq<Cell>)
    ensures |r| == 8 * |ws|
  {
    if ws == [] then [] else Word(ws[0]) + Words(ws[1..])
  }

  function Chars(s: string): (r: seq<Cell>)
    ensures |r| == |s| && forall k :: 0 <= k < |s| ==> r[k] == Char(s[k])
  {
    seq(|s|, k requires 0 <= k < |s| => Char(s[k]))
  }

  /** A string with its terminator. */
  function Str(s: string): (r: seq<Cell>)
    ensures |r| == |s| + 1
  {
    Chars(s) + [Char(NUL)]
  }

  function Strs(ss: seq<string>): seq<Cell> {
    if ss == [] then [] else Str(ss[0]) + Strs(ss[1..])
  }

  function AuxWords(v: seq<Aux>): (r: seq<int>)
    ensures |r| == 2 * |v|
  {
    if v == [] then [] else [v[0].kind, v[0].value] + AuxWords(v[1..])
  }

  /** Where each of the strings starts when they lie from `a` on. */
  function Starts(ss: seq<string>, a: int): (r: seq<int>)
    ensures |r| == |ss|
  {
    if ss == [] then [] else [a] + Starts(ss[1..], a + |ss[0]| + 1)
  }

  function FullAux(info: Info, execfn: int): seq<Aux> { info.auxv + [Aux(AT_EXECFN, execfn), Aux(AT_NULL, 0)] }

  // ---------------------------------------------------------------- the layout

  /** Strings and the final zero, at the high end. */
  function Tail(info: Info): seq<Cell> { Strs(info.argv) + (Strs(info.envp) + (Str(info.invocation) + Word(0))) }

  /** Words below the strings, when the strings start at `a`. */
  function HeadWords(info: Info, a: int): seq<int> {
    [|info.argv|] + ((Starts(info.argv, a) + [0])
                     + ((Starts(info.envp, a + |Strs(info.argv)|) + [0])
                        + AuxWords(FullAux(info, a + |Strs(info.argv)| + |Strs(info.envp)|))))
  }

  /** The number of words below the strings. */
  function WordCount(info: Info): nat { 1 + |info.argv| + 1 + |info.envp| + 1 + 2 * (|info.auxv| + 2) }

  function StackSize(info: Info): nat { 8 * WordCount(info) + |Tail(info)| }

  /** The whole picture, read upward from `head`. */
  function Layout(info: Info, head: int): seq<Cell> {
    Words(HeadWords(info, head + 8 * WordCount(info))) + Tail(info)
  }

  lemma {:induction false} WordsAppend(x: seq<int>, y: seq<int>)
    ensures Words(x + y) == Words(x) + Words(y)
  {
    if x == [] {
      assert x + y == y;
    } else {
      assert (x + y)[1..] == x[1..] + y;
      WordsAppend(x[1..], y);
    }
  }

  // ---------------------------------------------------------------- the stack

  ghost predicate Region(mem: Memory, a: int, cells: seq<Cell>) {
    forall k :: a <= k < a + |cells| ==> mem(k) == cells[k - a]
  }

  function Stored(mem: Memory, a: int, cells: seq<Cell>): Memory {
    x => if a <= x < a + |cells| then cells[x - a] else mem(x)
  }

  lemma PushRegion(mem: Memory, head: int, image: seq<Cell>, cells: seq<Cell>)
    requires Region(mem, head, image)
    ensures Region(Stored(mem, head - |cells|, cells), head - |cells|, cells + image)
  {
  }

  /** A stack that grows downward; `image` is what lies above its head. */
  class UserStack {
    const top: int
    const capacity: int
    var head: int
    var mem: Memory
    ghost var image: seq<Cell>

    ghost predicate Valid()
      reads this
    {
      Region(mem, head, image)
    }

    constructor (top: int, capacity: int, mem: Memory)
      ensures Valid() && head == top && image == [] && this.top == top && this.capacity == capacity
    {
      this.top, this.capacity, this.head, this.mem := top, capacity, top, mem;
      image := [];
    }

    /** `stack_push`; the kernel panics when it does not fit. */
    method Push(cells: seq<Cell>) returns (at: int)
      requires Valid() && |cells| <= head - (top - capacity)
      modifies this`head, this`mem, this`image
      ensures Valid() && head == old(head) - |cells| && at == head && image == cells + old(image)
    {
      PushRegion(mem, head, image, cells);
      mem := Stored(mem, head - |cells|, cells);
      head := head - |cells|;
      image := cells + image;
      return head;
    }

    /** The head is moved to leave a gap at the top. */
    method Restart(at: int)
      modifies this`head, this`image
      ensures Valid() && head == at && image == []
    {
      head := at;
      image := [];
    }

    /** Strings are pushed last to first, so they lie first to last. */
    method PushStrings(ss: seq<string>) returns (at: seq<int>)
      requires Valid() && |Strs(ss)| <= head - (top - capacity)
      modifies this`head, this`mem, this`image
      ensures Valid() && image == Strs(ss) + old(image) && head == old(head) - |Strs(ss)| && at == Starts(ss, head)
    {
      at := [];
      var i := |ss|;
      while i > 0
        invariant 0 <= i <= |ss| && Valid()
        invariant image == Strs(ss[i..]) + old(image) && head == old(head) - |Strs(ss[i..])| &&
                  at == Starts(ss[i..], head)
      {
        i := i - 1;
        assert ss[i..][0] == ss[i] && ss[i..][1..] == ss[i + 1..];
        StrsSuffix(ss, i);
        ghost var x, y, z := Str(ss[i]), Strs(ss[i + 1..]), old(image);
        var a := Push(Str(ss[i]));
        assert x + (y + z) == (x + y) + z;
        at := [a] + at;
      }
    }

    /** The size loops of `elf_setup_main_thread`. */
    static method ComputeSize(info: Info) returns (size: nat)
      ensures size == StackSize(info)
    {
      size := 8 + (|info.invocation| + 1);
      var i := 0;
      while i < |info.envp|
        invariant i <= |info.envp| && size == 8 + |info.invocation| + 1 + |Strs(info.envp[..i])|
      {
        StrsLonger(info.envp, i);
        size := size + |info.envp[i]| + 1;
        i := i + 1;
      }
      assert info.envp[..i] == info.envp;
      i := 0;
      while i < |info.argv|
        invariant i <= |info.argv| && size == 8 + |info.invocation| + 1 + |Strs(info.envp)| + |Strs(info.argv[..i])|
      {
        StrsLonger(info.argv, i);
        size := size + |info.argv[i]| + 1;
        i := i + 1;
      }
      assert info.argv[..i] == info.argv;
      size := size + 16 * (|info.auxv| + 2);
      size := size + 8 * (|info.envp| + 1);
      size := size + 8 * (|info.argv| + 1);
      size := size + 8;
    }

    /** `elf_setup_main_thread` on an empty stack in which everything fits. */
    method Setup(info: Info) returns (pargv: int, penvp: int)
      requires head == top && |info.auxv| + 2 <= AUXV_VEC_SIZE && top % 16 == 0
      requires AlignUp(StackSize(info), 16) <= capacity && 8 <= capacity
      modifies this
      ensures Valid() && head == top - AlignUp(StackSize(info), 16) && head % 16 == 0
      ensures image == Layout(info, head)
      ensures pargv == head + 8 && penvp == pargv + 8 * (|info.argv| + 1)
    {
      hide Region, Layout, Tail, Words, Starts, AuxWords, StackSize, AlignUp, Strs;
      Restart(top);
      var zero := Push(Word(0));
      var size := ComputeSize(info);
      AlignUpTo16(size);
      SizeIs(info);
      var aligned := AlignUp(size, 16);
      Restart(top - (aligned - size));
      var argv, envp, auxv := PushContents(info);
      pargv, penvp := PushVectors(info, argv, envp, auxv);
    }

    /** The final zero and all strings; the addresses go into the vectors. */
    method PushContents(info: Info) returns (argv: seq<int>, envp: seq<int>, auxv: seq<Aux>)
      requires Valid() && image == [] &&
               |Strs(info.argv)| + |Strs(info.envp)| + |info.invocation| + 9 <= head - (top - capacity)
      modifies this`head, this`mem, this`image
      ensures Valid() && image == Tail(info) &&
              head == old(head) - |Strs(info.argv)| - |Strs(info.envp)| - |info.invocation| - 9
      ensures argv == Starts(info.argv, head) + [0] && envp == Starts(info.envp, head + |Strs(info.argv)|) + [0]
      ensures auxv == FullAux(info, head + |Strs(info.argv)| + |Strs(info.envp)|)
    {
      hide Region, Tail, Starts, Strs;
      var zero := Push(Word(0));
      var execfn := Push(Str(info.invocation));
      auxv := info.auxv + [Aux(AT_EXECFN, execfn)];
      auxv := auxv + [Aux(AT_NULL, 0)];
      envp := PushStrings(info.envp);
      envp := envp + [0];
      argv := PushStrings(info.argv);
      argv := argv + [0];
      TailIs(info, image);
      assert auxv == FullAux(info, execfn);
    }

    /** The auxiliary vector, envp, argv and argc. */
    method PushVectors(info: Info, argv: seq<int>, envp: seq<int>, auxv: seq<Aux>) returns (pargv: int, penvp: int)
      requires Valid() && image == Tail(info) && 8 * WordCount(info) <= head - (top - capacity)
      requires argv == Starts(info.argv, head) + [0] && envp == Starts(info.envp, head + |Strs(info.argv)|) + [0]
      requires auxv == FullAux(info, head + |Strs(info.argv)| + |Strs(info.envp)|)
      modifies this`head, this`mem, this`image
      ensures Valid() && head == old(head) - 8 * WordCount(info) && image == Layout(info, head)
      ensures pargv == head + 8 && penvp == pargv + 8 * (|info.argv| + 1)
    {
      hide Region, Layout, Tail, Words, Starts, AuxWords, Strs;
      var at := Push(Words(AuxWords(auxv)));
      penvp := Push(Words(envp));
      pargv := Push(Words(argv));
      at := Push(Word(|info.argv|));
      LayoutIs(info, head, old(head), argv, envp, auxv, image, old(image));
    }
  }

  lemma {:induction false} StrsSuffix(ss: seq<string>, i: nat)
    requires i <= |ss|
    ensures |Strs(ss[i..])| <= |Strs(ss)|
    decreases i
  {
    if i > 0 {
      assert ss[i - 1..][1..] == ss[i..];
      StrsSuffix(ss, i - 1);
    } else {
      assert ss[0..] == ss;
    }
  }

  lemma {:induction false} StrsAppend(x: seq<string>, y: seq<string>)
    ensures Strs(x + y) == Strs(x) + Strs(y)
  {
    if x == [] {
      assert x + y == y;
    } else {
      assert (x + y)[1..] == x[1..] + y;
      StrsAppend(x[1..], y);
    }
  }

  lemma StrsLonger(ss: seq<string>, i: nat)
    requires i < |ss|
    ensures |Strs(ss[..i + 1])| == |Strs(ss[..i])| + |ss[i]| + 1
  {
    assert ss[..i + 1] == ss[..i] + [ss[i]];
    StrsAppend(ss[..i], [ss[i]]);
    assert [ss[i]][1..] == [];
  }

  lemma AlignUpTo16(n: nat)
    ensures n <= AlignUp(n, 16) < n + 16 && AlignUp(n, 16) % 16 == 0
  {
    hide AndNot;
    assert Pow2(4) == 16;
    AndNotMask(n + 15, 4);
  }

  lemma SizeIs(info: Info)
    ensures StackSize(info) == 8 * WordCount(info) + |Strs(info.argv)| + |Strs(info.envp)| + |info.invocation| + 1 + 8
  {
  }

  lemma TailIs(info: Info, image: seq<Cell>)
    requires image == Strs(info.argv) + (Strs(info.envp) + (Str(info.invocation) + (Word(0) + [])))
    ensures image == Tail(info)
  {
  }

  lemma LayoutIs(info: Info, head: int, a: int, argv: seq<int>, envp: seq<int>, auxv: seq<Aux>, image: seq<Cell>,
                 tail: seq<Cell>)
    requires a == head + 8 * WordCount(info) && tail == Tail(info)
    requires argv == Starts(info.argv, a) + [0] && envp == Starts(info.envp, a + |Strs(info.argv)|) + [0]
    requires auxv == FullAux(info, a + |Strs(info.argv)| + |Strs(info.envp)|)
    requires image == Word(|info.argv|) + (Words(argv) + (Words(envp) + (Words(AuxWords(auxv)) + tail)))
    ensures image == Layout(info, head)
  {
    hide Tail, Starts, AuxWords, Strs, Word, Words;
    var w3 := AuxWords(auxv);
    assert HeadWords(info, a) == [|info.argv|] + (argv + (envp + w3));
    WordsAppend([|info.argv|], argv + (envp + w3));
    WordsAppend(argv, envp + w3);
    WordsAppend(envp, w3);
    OneWord(|info.argv|);
    Regroup(Word(|info.argv|), Words(argv), Words(envp), Words(w3), tail);
  }

  lemma OneWord(w: int)
    ensures Words([w]) == Word(w)
  {
  }

  lemma Regroup(a: seq<Cell>, b: seq<Cell>, c: seq<Cell>, d: seq<Cell>, e: seq<Cell>)
    ensures a + (b + (c + (d + e))) == (a + (b + (c + d))) + e
  {
  }

  // ---------------------------------------------------------------- reading it back

  function WordAt(mem: Memory, a: int): int { if mem(a).Fragment? then mem(a).w else 0 }

  predicate NoNul(s: string) { NUL !in s }

  /** Strings end at their terminator and the given vector has no end marker of its own. */
  ghost predicate Proper(info: Info) {
    && NoNul(info.invocation)
    && (forall i :: 0 <= i < |info.argv| ==> NoNul(info.argv[i]))
    && (forall i :: 0 <= i < |info.envp| ==> NoNul(info.envp[i]))
    && (forall i :: 0 <= i < |info.auxv| ==> info.auxv[i].kind != AT_NULL)
  }

  lemma RegionSplits(mem: Memory, a: int, x: seq<Cell>, y: seq<Cell>)
    requires Region(mem, a, x + y)
    ensures Region(mem, a, x) && Region(mem, a + |x|, y)
  {
  }

  lemma {:induction false} WordIs(mem: Memory, a: int, ws: seq<int>, k: nat)
    requires Region(mem, a, Words(ws)) && k < |ws|
    ensures WordAt(mem, a + 8 * k) == ws[k]
    decreases k
  {
    RegionSplits(mem, a, Word(ws[0]), Words(ws[1..]));
    if k == 0 {
      assert mem(a) == Word(ws[0])[0];
    } else {
      WordIs(mem, a + 8, ws[1..], k - 1);
    }
  }

  lemma {:induction false} StringsAt(mem: Memory, a: int, ss: seq<string>, k: nat)
    requires Region(mem, a, Strs(ss)) && k < |ss|
    ensures Starts(ss, a)[k] >= a && Region(mem, Starts(ss, a)[k], Str(ss[k]))
    decreases k
  {
    RegionSplits(mem, a, Str(ss[0]), Strs(ss[1..]));
    if k > 0 { StringsAt(mem, a + |ss[0]| + 1, ss[1..], k - 1); }
  }

  lemma {:induction false} AuxWordsAt(v: seq<Aux>, k: nat)
    requires k < |v|
    ensures AuxWords(v)[2 * k] == v[k].kind && AuxWords(v)[2 * k + 1] == v[k].value
    decreases k
  {
    if k > 0 {
      AuxWordsAt(v[1..], k - 1);
      assert AuxWords(v)[2 * k] == AuxWords(v[1..])[2 * (k - 1)];
      assert AuxWords(v)[2 * k + 1] == AuxWords(v[1..])[2 * (k - 1) + 1];
    }
  }

  /** The parts of the picture. */
  lemma PartsOf(mem: Memory, head: int, info: Info)
    requires Region(mem, head, Layout(info, head))
    ensures var a := head + 8 * WordCount(info); var c, e := |info.argv|, |info.envp|;
            && WordAt(mem, head) == c
            && Region(mem, head + 8, Words(Starts(info.argv, a) + [0]))
            && Region(mem, head + 8 + 8 * (c + 1), Words(Starts(info.envp, a + |Strs(info.argv)|) + [0]))
            && Region(mem, head + 8 + 8 * (c + 1) + 8 * (e + 1),
                      Words(AuxWords(FullAux(info, a + |Strs(info.argv)| + |Strs(info.envp)|))))
            && Region(mem, a, Strs(info.argv)) && Region(mem, a + |Strs(info.argv)|, Strs(info.envp))
            && Region(mem, a + |Strs(info.argv)| + |Strs(info.envp)|, Str(info.invocation))
  {
    hide Region, Words, Starts, AuxWords, Strs, WordAt;
    var a := head + 8 * WordCount(info);
    var x, y := Starts(info.argv, a) + [0], Starts(info.envp, a + |Strs(info.argv)|) + [0];
    var z := AuxWords(FullAux(info, a + |Strs(info.argv)| + |Strs(info.envp)|));
    var ws := HeadWords(info, a);
    assert ws == [|info.argv|] + (x + (y + z)) && |ws| == WordCount(info);
    RegionSplits(mem, head, Words(ws), Tail(info));
    WordIs(mem, head, ws, 0);
    WordsAppend([|info.argv|], x + (y + z));
    WordsAppend(x, y + z);
    WordsAppend(y, z);
    RegionSplits(mem, head, Words([|info.argv|]), Words(x + (y + z)));
    RegionSplits(mem, head + 8, Words(x), Words(y + z));
    RegionSplits(mem, head + 8 + 8 * |x|, Words(y), Words(z));
    RegionSplits(mem, a, Strs(info.argv), Strs(info.envp) + (Str(info.invocation) + Word(0)));
    RegionSplits(mem, a + |Strs(info.argv)|, Strs(info.envp), Str(info.invocation) + Word(0));
    RegionSplits(mem, a + |Strs(info.argv)| + |Strs(info.envp)|, Str(info.invocation), Word(0));
  }

  /** A string is read up to its terminator. */
  method ReadString(mem: Memory, a: int, ghost s: string) returns (r: string)
    requires Region(mem, a, Str(s)) && NoNul(s)
    ensures r == s
  {
    r := "";
    NoEarlyEnd(s);
    assert mem(a) == Str(s)[0];
    while mem(a + |r|) != Char(NUL)
      invariant |r| <= |s| && r == s[..|r|] && mem(a + |r|) == Str(s)[|r|]
      decreases |s| - |r|
    {
      var cell := mem(a + |r|);
      r := r + [if cell.Char? then cell.c else NUL];
      assert mem(a + |r|) == Str(s)[|r|];
    }
  }

  lemma NoEarlyEnd(s: string)
    requires NoNul(s)
    ensures Str(s)[|s|] == Char(NUL) && forall k :: 0 <= k < |s| ==> Str(s)[k] == Char(s[k]) && Str(s)[k] != Char(NUL)
  {
  }

  lemma {:induction false} StartsAbove(ss: seq<string>, a: int, k: nat)
    requires k < |ss|
    ensures Starts(ss, a)[k] >= a
    decreases k
  {
    if k > 0 { StartsAbove(ss[1..], a + |ss[0]| + 1, k - 1); }
  }

  /** A vector of string pointers is read up to its null pointer. */
  method ReadVector(mem: Memory, at: int, ghost ss: seq<string>, ghost a: int) returns (r: seq<string>)
    requires a > 0 && Region(mem, at, Words(Starts(ss, a) + [0])) && Region(mem, a, Strs(ss))
    requires forall i :: 0 <= i < |ss| ==> NoNul(ss[i])
    ensures r == ss
  {
    hide Region, Words, Starts, Strs, WordAt, NoNul;
    r := [];
    ghost var ws := Starts(ss, a) + [0];
    WordIs(mem, at, ws, 0);
    forall k | 0 <= k < |ss| ensures ws[k] >= a { StartsAbove(ss, a, k); }
    while WordAt(mem, at + 8 * |r|) != 0
      invariant |r| <= |ss| && r == ss[..|r|]
      invariant WordAt(mem, at + 8 * |r|) == ws[|r|]
      decreases |ss| - |r|
    {
      var p := WordAt(mem, at + 8 * |r|);
      assert |r| < |ss|;
      StringsAt(mem, a, ss, |r|);
      var one := ReadString(mem, p, ss[|r|]);
      r := r + [one];
      WordIs(mem, at, ws, |r|);
    }
  }

  /** The auxiliary vector is read up to its end marker. */
  method ReadAux(mem: Memory, at: int, ghost v: seq<Aux>) returns (r: seq<Aux>)
    requires Region(mem, at, Words(AuxWords(v + [Aux(AT_NULL, 0)])))
    requires forall i :: 0 <= i < |v| ==> v[i].kind != AT_NULL
    ensures r == v
  {
    hide Region, Words, AuxWords, WordAt;
    r := [];
    ghost var all := v + [Aux(AT_NULL, 0)];
    ghost var ws := AuxWords(all);
    AuxWordsAt(all, 0);
    WordIs(mem, at, ws, 0);
    while WordAt(mem, at + 16 * |r|) != AT_NULL
      invariant |r| <= |v| && r == v[..|r|]
      invariant WordAt(mem, at + 16 * |r|) == all[|r|].kind
      decreases |v| - |r|
    {
      AuxWordsAt(all, |r|);
      WordIs(mem, at, ws, 2 * |r| + 1);
      r := r + [Aux(WordAt(mem, at + 16 * |r|), WordAt(mem, at + 16 * |r| + 8))];
      AuxWordsAt(all, |r|);
      WordIs(mem, at, ws, 2 * |r|);
    }
  }

  /** Reading upward from the head gives back what the stack was built from. */
  method ReadStart(mem: Memory, head: int, ghost info: Info)
    returns (argc: int, argv: seq<string>, envp: seq<string>, auxv: seq<Aux>, name: string)
    requires head >= 0 && Region(mem, head, Layout(info, head)) && Proper(info)
    ensures argc == |info.argv| && argv == info.argv && envp == info.envp && name == info.invocation
    ensures |auxv| == |info.auxv| + 1 && auxv[..|info.auxv|] == info.auxv && auxv[|info.auxv|].kind == AT_EXECFN
  {
    hide Region, Layout, Words, Starts, AuxWords, Strs, WordAt;
    PartsOf(mem, head, info);
    ghost var a := head + 8 * WordCount(info);
    ghost var b := a + |Strs(info.argv)|;
    ghost var c := b + |Strs(info.envp)|;
    argc := WordAt(mem, head);
    argv := ReadVector(mem, head + 8, info.argv, a);
    envp := ReadVector(mem, head + 8 + 8 * (argc + 1), info.envp, b);
    ghost var v := info.auxv + [Aux(AT_EXECFN, c)];
    assert FullAux(info, c) == v + [Aux(AT_NULL, 0)];
    auxv := ReadAux(mem, head + 8 + 8 * (argc + 1) + 8 * (|envp| + 1), v);
    name := ReadString(mem, auxv[|auxv| - 1].value, info.invocation);
  }

  /** What a new program sees is what it was started with. */
  method StartUp(info: Info, top: int, capacity: int, mem: Memory)
    returns (argc: int, argv: seq<string>, envp: seq<string>, auxv: seq<Aux>, name: string)
    requires Proper(info) && |info.auxv| + 2 <= AUXV_VEC_SIZE && top % 16 == 0
    requires AlignUp(StackSize(info), 16) <= capacity <= top && 8 <= capacity
    ensures argc == |info.argv| && argv == info.argv && envp == info.envp && name == info.invocation
    ensures |auxv| == |info.auxv| + 1 && auxv[..|info.auxv|] == info.auxv
  {
    hide Layout, StackSize, AlignUp, Proper;
    var stack := new UserStack(top, capacity, mem);
    var pargv, penvp := stack.Setup(info);
    argc, argv, envp, auxv, name := ReadStart(stack.mem, stack.head, info);
  }
}
