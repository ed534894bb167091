/** The partial-write loop of uthread_writev over an in-place iovec array. */
module Writev {

  newtype byte = x: int | 0 <= x < 256

  /** A stretch of memory: iov_base and iov_len. */
  datatype Iovec = Iovec(base: nat, len: nat)

  /** What the kernel may do with one call: write some bytes, ask to wait, or
      fail.  See KernelWritten for how many bytes. */
  datatype Response = Wrote(amount: nat) | Again | Failed

  /** The return value, or still waiting when the kernel's answers end. */
  datatype Outcome = Return(value: int) | Waiting

  ghost predicate InBounds(mem: seq<byte>, iov: seq<Iovec>) {
    forall i :: 0 <= i < |iov| ==> iov[i].base + iov[i].len <= |mem|
  }

  ghost function Gather(mem: seq<byte>, iov: seq<Iovec>): seq<byte>
    requires InBounds(mem, iov)
  {
    if iov == [] then [] else mem[iov[0].base..iov[0].base + iov[0].len] + Gather(mem, iov[1..])
  }

  /** writev() of POSIX.1-2017 on a request of `size` bytes: nothing when there
      is nothing to write, otherwise at least one byte and at most all. */
  function KernelWritten(size: nat, amount: nat): (n: nat)
    ensures size == 0 ==> n == 0
    ensures size > 0 ==> 1 <= n <= size
  {
    if size == 0 then 0 else 1 + amount % size
  }

  lemma {:induction false} AnyShortWrite(size: nat, n: nat)
    requires 1 <= n <= size
    ensures exists amount: nat :: KernelWritten(size, amount) == n
  {
    assert KernelWritten(size, n - 1) == n;
  }

  function SizeOf(iov: seq<Iovec>): nat { if iov == [] then 0 else iov[0].len + SizeOf(iov[1..]) }

  lemma {:induction false} GatherSize(mem: seq<byte>, iov: seq<Iovec>)
    requires InBounds(mem, iov)
    ensures |Gather(mem, iov)| == SizeOf(iov)
    ensures SizeOf(iov) == 0 <==> forall i :: 0 <= i < |iov| ==> iov[i].len == 0
  {
    if iov != [] {
      GatherSize(mem, iov[1..]);
      assert SizeOf(iov[1..]) == 0 ==> forall i :: 0 < i < |iov| ==> iov[i] == iov[1..][i - 1];
      assert forall i :: 0 <= i < |iov[1..]| ==> iov[1..][i] == iov[i + 1];
    }
  }

  /** What is left of a request after its first `n` bytes are written. */
  ghost predicate Left(mem: seq<byte>, iov: seq<Iovec>, n: nat, rest: seq<byte>) {
    InBounds(mem, iov) && n <= |Gather(mem, iov)| && Gather(mem, iov)[n..] == rest
  }

  lemma Trim(mem: seq<byte>, iov: seq<Iovec>, n: nat, rest: seq<byte>)
    requires Left(mem, iov, n, rest) && iov != [] && n < iov[0].len
    ensures Left(mem, [Iovec(iov[0].base + n, iov[0].len - n)] + iov[1..], 0, rest)
  {
    var v, iov' := Iovec(iov[0].base + n, iov[0].len - n), [Iovec(iov[0].base + n, iov[0].len - n)] + iov[1..];
    assert iov'[1..] == iov[1..];
    var head, tail := mem[iov[0].base..iov[0].base + iov[0].len], Gather(mem, iov[1..]);
    assert (head + tail)[n..] == head[n..] + tail;
  }

  lemma Skip(mem: seq<byte>, iov: seq<Iovec>, n: nat, rest: seq<byte>)
    requires Left(mem, iov, n, rest) && iov != [] && iov[0].len <= n
    ensures Left(mem, iov[1..], n - iov[0].len, rest)
  {
    var head, tail := mem[iov[0].base..iov[0].base + iov[0].len], Gather(mem, iov[1..]);
    assert (head + tail)[n..] == tail[n - iov[0].len..];
  }

  /** The for loop: account for `written` bytes of the request, advancing the
      index past finished entries and trimming a half-finished one. */
  method Advance(mem: seq<byte>, iov: array<Iovec>, index: nat, written: nat, ghost rest: seq<byte>)
      returns (iov_index: nat)
    requires index <= iov.Length && Left(mem, iov[index..], written, rest)
    modifies iov
    ensures index <= iov_index <= iov.Length && Left(mem, iov[iov_index..], 0, rest)
    ensures iov_index < iov.Length ==> (LastLen(iov[iov_index..]) > 0 <==> old(LastLen(iov[..])) > 0)
    ensures index < iov_index == iov.Length ==> old(LastLen(iov[..])) > 0
  {
    hide Left;
    iov_index := index;
    var n: nat, i := written, index;
    while i < iov.Length && n > 0
      invariant index <= iov_index <= i <= iov.Length && (n > 0 ==> i == iov_index)
      invariant Left(mem, iov[iov_index..], n, rest)
      invariant iov_index < iov.Length ==> (LastLen(iov[iov_index..]) > 0 <==> old(LastLen(iov[..])) > 0)
      invariant index < iov_index == iov.Length ==> old(LastLen(iov[..])) > 0
    {
      ghost var s := iov[i..];
      assert s[0] == iov[i] && s[1..] == iov[i + 1..];
      if n < iov[i].len {
        Trim(mem, s, n, rest);
        iov[i] := Iovec(iov[i].base + n, iov[i].len - n);
        assert iov[i..] == [iov[i]] + s[1..];
        n := 0;
      } else {
        Skip(mem, s, n, rest);
        if i + 1 == iov.Length { NoneLeft(mem, s[1..], n - iov[i].len, rest); }
        n := n - iov[i].len;
        iov_index := iov_index + 1;
      }
      i := i + 1;
    }
    if n > 0 { NoneLeft(mem, iov[i..], n, rest); }
  }

  lemma NoneLeft(mem: seq<byte>, iov: seq<Iovec>, n: nat, rest: seq<byte>)
    requires Left(mem, iov, n, rest) && iov == []
    ensures n == 0 && rest == []
  {
  }

  lemma LeftAll(mem: seq<byte>, iov: seq<Iovec>)
    requires InBounds(mem, iov)
    ensures Left(mem, iov, 0, Gather(mem, iov))
  {
  }

  /** How much is left, and that a non-empty last entry is left too. */
  lemma LeftSize(mem: seq<byte>, iov: seq<Iovec>, rest: seq<byte>)
    requires Left(mem, iov, 0, rest)
    ensures InBounds(mem, iov) && Gather(mem, iov) == rest
    ensures SizeOf(iov) == |rest| && (rest == [] ==> LastLen(iov) == 0)
    ensures forall n :: 0 <= n <= |rest| ==> Left(mem, iov, n, rest[n..])
  {
    GatherSize(mem, iov);
  }

  /** How many answers say that something was written. */
  ghost function Writes(answers: seq<Response>): nat {
    if answers == [] then 0
    else Writes(answers[..|answers| - 1]) + if answers[|answers| - 1].Wrote? then 1 else 0
  }

  ghost function LastLen(iov: seq<Iovec>): nat { if iov == [] then 0 else iov[|iov| - 1].len }

  /** How many bytes of a request of `size` the kernel takes in the course of the
      answers, if the call goes on after each of them. */
  ghost function Taken(size: nat, answers: seq<Response>): (n: nat)
    ensures n <= size
  {
    if answers == [] then 0
    else
      var n, answer := Taken(size, answers[..|answers| - 1]), answers[|answers| - 1];
      if answer.Wrote? then n + KernelWritten(size - n, answer.amount) else n
  }

  /** Answer k ends the call: a failure, a write with nothing left to write, or
      the write of all that was left when the last of the iovecs is not empty.
      With no iovecs at all every answer ends it. */
  ghost predicate Ends(iov: seq<Iovec>, answers: seq<Response>, k: nat)
    requires k < |answers|
  {
    || iov == [] || answers[k] == Failed
    || (answers[k].Wrote? && Taken(SizeOf(iov), answers[..k]) == SizeOf(iov))
    || (answers[k].Wrote? && Taken(SizeOf(iov), answers[..k + 1]) == SizeOf(iov) && LastLen(iov) > 0)
  }

  /** The request is full when its last write was, or nothing at all was sent. */
  ghost function Result(iov: seq<Iovec>, answer: Response): int {
    if answer == Failed then -1 else if LastLen(iov) > 0 then SizeOf(iov) else 0
  }

  /** uthread_writev against any sequence of kernel answers.  `sent` is what the
      kernel has taken, `index` where the request stands, `used` the number of
      answers up to the one that ends the call, or all if none does. */
  method UthreadWritev(mem: seq<byte>, iov: array<Iovec>, answers: seq<Response>)
      returns (out: Outcome, ghost sent: seq<byte>, ghost index: nat, ghost used: nat)
    requires InBounds(mem, iov[..])
    modifies iov
    ensures index <= iov.Length && InBounds(mem, iov[index..])
    ensures sent + Gather(mem, iov[index..]) == old(Gather(mem, iov[..]))
    ensures used <= |answers| && |sent| == Taken(old(SizeOf(iov[..])), answers[..used])
    ensures out.Waiting? ==> used == |answers| && forall k :: 0 <= k < |answers| ==> !Ends(old(iov[..]), answers, k)
    ensures out.Return? ==>
      && used > 0 && Ends(old(iov[..]), answers, used - 1) && out.value == Result(old(iov[..]), answers[used - 1])
      && forall k :: 0 <= k < used - 1 ==> !Ends(old(iov[..]), answers, k)
    ensures out.Return? && out.value >= 0 ==> sent == old(Gather(mem, iov[..]))
    ensures out.Return? && out.value >= 0 ==> out.value == if old(LastLen(iov[..])) > 0 then |sent| else 0
    ensures out.Waiting? ==> Writes(answers) <= |sent| && forall k :: 0 <= k < |answers| ==> answers[k] != Failed
    ensures out.Return? && out.value < 0 ==> out.value == -1 && answers[used - 1] == Failed
  {
    hide Left, Gather, InBounds, SizeOf, Taken, LastLen, Writes, Ends, Result;
    var total, iov_index, k := 0, 0, 0;
    ghost var rest, iov0 := Gather(mem, iov[..]), iov[..];
    ghost var size := SizeOf(iov0);
    sent, index, used := [], 0, 0;
    assert iov[0..] == iov[..];
    LeftAll(mem, iov[..]);
    LeftSize(mem, iov[..], rest);
    assert sent + rest == rest;
    TakenNone(size);
    NoneWritten();
    while k < |answers|
      invariant k <= |answers| && index == iov_index <= iov.Length && total == |sent| && used == k
      invariant InBounds(mem, iov[index..]) && Gather(mem, iov[index..]) == rest
      invariant Left(mem, iov[index..], 0, rest) && sent + rest == old(Gather(mem, iov[..]))
      invariant iov_index < iov.Length ==> (LastLen(iov[iov_index..]) > 0 <==> LastLen(iov0) > 0)
      invariant |sent| == Taken(size, answers[..k]) && size == |sent| + |rest|
      invariant Writes(answers[..k]) <= |sent|
      invariant forall j :: 0 <= j < k ==> !Ends(iov0, answers, j) && answers[j] != Failed
      invariant if iov.Length > 0 then iov_index < iov.Length else sent == []
    {
      var answer := answers[k];
      assert answers[..k + 1][..k] == answers[..k];
      TakenMore(size, answers, k);
      EndsIs(iov0, answers, k);
      EmptyLast(iov0);
      LeftSize(mem, iov[iov_index..], rest);
      k := k + 1;
      used := k;
      if answer.Wrote? {
        if iov.Length == 0 { NoneLeft(mem, iov[iov_index..], 0, rest); }
        var n := KernelWritten(SizeOf(iov[iov_index..]), answer.amount);
        if n > 0 {
          assert sent + rest == (sent + rest[..n]) + rest[n..];
          sent, rest := sent + Gather(mem, iov[iov_index..])[..n], rest[n..];
          total := total + n;
          if iov_index < iov.Length { SliceLast(iov[..], iov_index); }
          iov_index := Advance(mem, iov, iov_index, n, rest);
          index := iov_index;
          LeftSize(mem, iov[index..], rest);
        } else {
          out := Return(n);
          return;
        }
      } else if answer == Again {
        // the coroutine waits for the socket to become writable and tries again
      } else {
        out := Return(-1);
        return;
      }
      if iov_index >= iov.Length {
        NoneLeft(mem, iov[iov_index..], 0, rest);
        assert sent + rest == sent;
        out := Return(total);
        return;
      }
    }
    assert answers[..k] == answers;
    out := Waiting;
  }

  lemma NoneWritten()
    ensures Writes([]) == 0
  {
  }

  lemma TakenNone(size: nat)
    ensures Taken(size, []) == 0
  {
  }

  lemma EndsIs(iov: seq<Iovec>, answers: seq<Response>, k: nat)
    requires k < |answers|
    ensures var size, n := SizeOf(iov), Taken(SizeOf(iov), answers[..k]);
      Ends(iov, answers, k) <==>
        || iov == [] || answers[k] == Failed
        || (answers[k].Wrote? && (n == size || (n + KernelWritten(size - n, answers[k].amount) == size && LastLen(iov) > 0)))
    ensures Result(iov, answers[k]) == if answers[k] == Failed then -1 else if LastLen(iov) > 0 then SizeOf(iov) else 0
    ensures Writes(answers[..k + 1]) == Writes(answers[..k]) + if answers[k].Wrote? then 1 else 0
  {
    TakenMore(SizeOf(iov), answers, k);
    assert answers[..k + 1][..k] == answers[..k];
  }

  lemma SliceLast(iov: seq<Iovec>, i: nat)
    requires i < |iov|
    ensures LastLen(iov[i..]) == LastLen(iov)
  {
  }

  lemma EmptyLast(iov: seq<Iovec>)
    ensures LastLen(iov) > 0 ==> SizeOf(iov) > 0
  {
    if iov != [] {
      LastCounts(iov);
    }
  }

  lemma {:induction false} LastCounts(iov: seq<Iovec>)
    requires iov != []
    ensures LastLen(iov) <= SizeOf(iov)
  {
    if |iov| > 1 {
      LastCounts(iov[1..]);
    }
  }

  lemma TakenMore(size: nat, answers: seq<Response>, k: nat)
    requires k < |answers|
    ensures var n, answer := Taken(size, answers[..k]), answers[k];
      Taken(size, answers[..k + 1]) == if answer.Wrote? then n + KernelWritten(size - n, answer.amount) else n
  {
    assert answers[..k + 1][..k] == answers[..k];
  }

  /** With an empty last entry everything is sent and yet 0 is returned. */
  method EmptyLastEntry(x: byte) returns (out: Outcome, ghost sent: seq<byte>)
    ensures out == Return(0) && sent == [x]
  {
    var iov := new Iovec[] [Iovec(0, 1), Iovec(1, 0)];
    var answers := [Wrote(0), Wrote(0)];
    assert Gather([x], iov[..]) == [x] by {
      assert iov[..][1..] == [Iovec(1, 0)];
      assert Gather([x], [Iovec(1, 0)]) == [];
    }
    assert Writes(answers) == 2 by { assert answers[..1] == [Wrote(0)]; }
    ghost var index, used;
    out, sent, index, used := UthreadWritev([x], iov, answers);
  }
}
