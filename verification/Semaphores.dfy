/** `FiberSemaphore` (chat/mutex.cc): `tryWait`, `wait` and `notify`, each one locked region. */
module Semaphores {
  import opened Options

  /** `m_concurrency` and `m_waiters`. */
  datatype Sem<W> = Sem(free: nat, waiters: seq<W>)

  /** `wait`: take a permit, or park at the end of the line. */
  function Wait<W>(s: Sem<W>, w: W): (Sem<W>, bool) {
    if s.free > 0 then (s.(free := s.free - 1), true) else (s.(waiters := s.waiters + [w]), false)
  }

  function TryWait<W>(s: Sem<W>): (Sem<W>, bool) {
    if s.free > 0 then (s.(free := s.free - 1), true) else (s, false)
  }

  /** `notify`: hand the permit to the first in line, or bank it. */
  function Notify<W>(s: Sem<W>): (Sem<W>, Option<W>) {
    if s.waiters != [] then (s.(waiters := s.waiters[1..]), Some(s.waiters[0])) else (s.(free := s.free + 1), None)
  }

  // ---------------------------------------------------------------- histories

  /** A semaphore with its past: who asked (in order, failed `tryWait`s aside), who got a permit (in
      order), and how many permits were ever put in. */
  datatype Hist<W> = Hist(sem: Sem<W>, arrivals: seq<W>, grants: seq<W>, put: nat)

  datatype Op<W> = WaitOp(w: W) | TryOp(w: W) | NotifyOp

  function New<W>(initial: nat): Hist<W> {
    Hist(Sem(initial, []), [], [], initial)
  }

  function Step<W>(h: Hist<W>, op: Op<W>): Hist<W> {
    match op
    case WaitOp(w) =>
      var (s, ok) := Wait(h.sem, w);
      h.(sem := s, arrivals := h.arrivals + [w], grants := if ok then h.grants + [w] else h.grants)
    case TryOp(w) =>
      var (s, ok) := TryWait(h.sem);
      if ok then h.(sem := s, arrivals := h.arrivals + [w], grants := h.grants + [w]) else h.(sem := s)
    case NotifyOp =>
      var (s, woken) := Notify(h.sem);
      h.(sem := s, grants := if woken.Some? then h.grants + [woken.value] else h.grants, put := h.put + 1)
  }

  function Run<W>(h: Hist<W>, ops: seq<Op<W>>): Hist<W>
    decreases |ops|
  {
    if ops == [] then h else Run(Step(h, ops[0]), ops[1..])
  }

  /** Permits go out in the order they were asked for; nobody waits while one is free; none is lost. */
  ghost predicate Fair<W>(h: Hist<W>) {
    && h.arrivals == h.grants + h.sem.waiters
    && (h.sem.waiters != [] ==> h.sem.free == 0)
    && |h.grants| + h.sem.free == h.put
  }

  lemma StepFair<W>(h: Hist<W>, op: Op<W>)
    requires Fair(h)
    ensures Fair(Step(h, op))
  {
    if op.NotifyOp? && h.sem.waiters != [] {
      assert h.sem.waiters == [h.sem.waiters[0]] + h.sem.waiters[1..];
      assert h.grants + h.sem.waiters == h.grants + [h.sem.waiters[0]] + h.sem.waiters[1..];
    }
  }

  lemma {:induction false} RunFair<W>(h: Hist<W>, ops: seq<Op<W>>)
    requires Fair(h)
    ensures Fair(Run(h, ops))
    decreases |ops|
  {
    if ops != [] {
      StepFair(h, ops[0]);
      RunFair(Step(h, ops[0]), ops[1..]);
    }
  }

  /** After any run the permits went to the first arrivals, as many as there are permits or arrivals. */
  lemma FirstComeFirstServed<W>(initial: nat, ops: seq<Op<W>>)
    ensures var h := Run(New<W>(initial), ops);
            && |h.grants| == (if h.put < |h.arrivals| then h.put else |h.arrivals|)
            && h.grants == h.arrivals[..|h.grants|]
  {
    RunFair(New<W>(initial), ops);
    var h := Run(New<W>(initial), ops);
    assert |h.arrivals| == |h.grants| + |h.sem.waiters|;
  }
}
