/** pipe.c: a ring of 512 bytes with counters that wrap at 2^32, any number of readers and writers.

    What a process does between taking p->lock and giving it up, in sleep or at the end, is one turn. sleep
    gives up the lock and falls asleep in one step; wakeup makes every sleeper on its channel ready. */
module Pipe {
  import opened Basics
  import opened Words

  const PIPESIZE := 512

  /** How a turn ends: asleep, broken (-1), or done. */
  datatype End = Asleep | Broken | Done

  datatype Job = Writing(src: seq<byte>, i: nat) | Reading(n: int)

  datatype Event = Write(p: nat, src: seq<byte>) | Read(p: nat, n: int) | Resume(p: nat) | CloseEnd(writable: bool)

  function Wrap(k: nat): nat {
    k % 0x1_0000_0000
  }

  lemma WrapNext(k: nat)
    ensures Wrap(Wrap(k) + 1) == Wrap(k + 1) && Wrap(k) % 512 == k % 512
  {
    WrapOffset(k, 1);
    var q := k / 0x1_0000_0000;
    assert k == Wrap(k) + 512 * (q * 0x80_0000);
    RingOffset(Wrap(k), q * 0x80_0000);
  }

  lemma RingOffset(r: nat, q: nat)
    ensures (r + 512 * q) % 512 == r % 512
  {
  }

  /** Two counts at most 512 apart are equal, or 512 apart, just when their wrapped values say so. */
  lemma WrapDistance(r: nat, w: nat)
    requires r <= w <= r + 512
    ensures Wrap(r) == Wrap(w) <==> r == w
    ensures Wrap(w) == Wrap(Wrap(r) + 512) <==> w == r + 512
  {
    WrapOffset(r, w - r);
    WrapOffset(r, 512);
  }

  lemma WrapOffset(r: nat, d: nat)
    requires d <= 512
    ensures Wrap(r + d) == if Wrap(r) + d < 0x1_0000_0000 then Wrap(r) + d else Wrap(r) + d - 0x1_0000_0000
    ensures Wrap(Wrap(r) + d) == Wrap(r + d)
  {
  }

  /** Positions less than 512 apart use different slots of the ring. */
  lemma SlotsApart(k: nat, l: nat)
    requires k < l < k + 512
    ensures k % 512 != l % 512
  {
  }

  /** With `fill` bytes in the ring: nobody sleeps who could go on, and a call in progress holds its end open. */
  predicate WaitingOk(jobs: map<nat, Job>, readers: set<nat>, writers: set<nat>, fill: int, readopen: bool,
                      writeopen: bool) {
    && (readers != {} ==> fill == 0 && writeopen)
    && (writers != {} ==> fill == PIPESIZE && readopen)
    && (forall p :: p in readers ==> p in jobs && jobs[p].Reading?)
    && (forall p :: p in writers ==> p in jobs && jobs[p].Writing?)
    && (forall p :: p in jobs ==> if jobs[p].Writing? then writeopen && jobs[p].i <= |jobs[p].src| else readopen)
  }

  lemma JobHere(jobs: map<nat, Job>, readers: set<nat>, writers: set<nat>, fill: int, readopen: bool, writeopen: bool,
                p: nat)
    requires WaitingOk(jobs, readers, writers, fill, readopen, writeopen) && p in jobs && jobs[p].Writing?
    ensures jobs[p].i <= |jobs[p].src|
  {
  }

  lemma WriterStuck(jobs: map<nat, Job>, readers: set<nat>, writers: set<nat>, fill: int, readopen: bool,
                    writeopen: bool, p: nat, i: nat)
    requires WaitingOk(jobs, readers, writers, fill, readopen, writeopen) && p in jobs && jobs[p].Writing?
               && p !in writers
    requires i <= |jobs[p].src| && (fill == PIPESIZE || i > jobs[p].i)
    ensures !readopen ==> readers == {} && WaitingOk(jobs - {p}, readers, writers, PIPESIZE, readopen, writeopen)
    ensures readopen ==>
              WaitingOk(jobs[p := Writing(jobs[p].src, i)], {}, writers + {p}, PIPESIZE, readopen, writeopen)
  {
  }

  lemma WriterDone(jobs: map<nat, Job>, readers: set<nat>, writers: set<nat>, fill: int, fill': int, readopen: bool,
                   writeopen: bool, p: nat)
    requires WaitingOk(jobs, readers, writers, fill, readopen, writeopen) && p in jobs && jobs[p].Writing?
               && p !in writers
    requires fill' == fill || fill < PIPESIZE
    ensures WaitingOk(jobs - {p}, {}, writers, fill', readopen, writeopen)
  {
  }

  class Pipe {
    const data: array<byte>
    var nread: nat
    var nwrite: nat
    var readopen: bool
    var writeopen: bool

    /** Calls in progress, by process, and those of them that sleep on &nread and &nwrite. */
    var jobs: map<nat, Job>
    var readers: set<nat>
    var writers: set<nat>

    ghost var accepted: seq<byte>
    ghost var delivered: seq<byte>

    /** The bytes between the counters are those accepted and not yet delivered. */
    ghost predicate RingOk()
      reads this, data
    {
      && data.Length == PIPESIZE
      && |delivered| <= |accepted| <= |delivered| + PIPESIZE
      && nread == Wrap(|delivered|) && nwrite == Wrap(|accepted|)
      && delivered == accepted[..|delivered|]
      && forall k :: |delivered| <= k < |accepted| ==> data[k % 512] == accepted[k]
    }

    ghost predicate CallsOk()
      reads this
    {
      WaitingOk(jobs, readers, writers, |accepted| - |delivered|, readopen, writeopen)
    }

    ghost predicate Valid()
      reads this, data
    {
      RingOk() && CallsOk()
    }

    constructor ()
      ensures Valid() && fresh(data) && accepted == [] && delivered == [] && readopen && writeopen && jobs == map[]
    {
      data := new byte[512];
      nread, nwrite := 0, 0;
      readopen, writeopen := true, true;
      jobs, readers, writers := map[], {}, {};
      accepted, delivered := [], [];
    }

    /** One byte into the ring: p->data[p->nwrite++ % PIPESIZE] = c. */
    method PutByte(c: byte)
      requires RingOk() && |accepted| < |delivered| + PIPESIZE
      modifies data, `nwrite, `accepted
      ensures RingOk() && accepted == old(accepted) + [c]
    {
      WrapNext(|accepted|);
      forall k | |delivered| <= k < |accepted|
        ensures k % 512 != |accepted| % 512
      {
        SlotsApart(k, |accepted|);
      }
      data[nwrite % PIPESIZE] := c;
      nwrite := (nwrite + 1) % UINT;
      accepted := accepted + [c];
    }

    /** One byte out of it: p->data[p->nread++ % PIPESIZE]. */
    method GetByte() returns (c: byte)
      requires RingOk() && |delivered| < |accepted|
      modifies `nread, `delivered
      ensures RingOk() && c == accepted[|old(delivered)|] && delivered == old(delivered) + [c]
    {
      WrapNext(|delivered|);
      c := data[nread % PIPESIZE];
      nread := (nread + 1) % UINT;
      delivered := delivered + [c];
    }

    /** pipewrite's loop up to the end of `src` or a full ring. */
    method Fill(src: seq<byte>, start: nat) returns (i: nat)
      requires RingOk() && start <= |src|
      modifies data, `nwrite, `accepted
      ensures RingOk() && start <= i <= |src| && accepted == old(accepted) + src[start..i]
      ensures i < |src| ==> |accepted| == |delivered| + PIPESIZE
      ensures i == start || old(|accepted| < |delivered| + PIPESIZE)
    {
      hide Wrap;
      i := start;
      WrapDistance(|delivered|, |accepted|);
      while i < |src| && nwrite != Wrap(nread + PIPESIZE)
        invariant start <= i <= |src| && RingOk()
        invariant accepted == old(accepted) + src[start..i]
        invariant i == start || old(|accepted| < |delivered| + PIPESIZE)
        invariant nwrite == Wrap(nread + PIPESIZE) <==> |accepted| == |delivered| + PIPESIZE
      {
        PutByte(src[i]);
        assert src[start..i + 1] == src[start..i] + [src[i]];
        WrapDistance(|delivered|, |accepted|);
        i := i + 1;
      }
    }

    /** A turn of pipewrite: `m` more bytes go in, until all have or the ring is full. */
    method WriteTurn(p: nat) returns (end: End, ghost m: nat)
      requires Valid() && p in jobs && jobs[p].Writing? && p !in writers
      modifies data, `nwrite, `accepted, `jobs, `readers, `writers
      ensures Valid()
      ensures var job := old(jobs)[p];
              && job.i + m <= |job.src| && accepted == old(accepted) + job.src[job.i..job.i + m]
              && (end == Done <==> job.i + m == |job.src|)
              && (end == Asleep ==> readopen && jobs == old(jobs)[p := Writing(job.src, job.i + m)])
      ensures end != Done ==> |accepted| == |delivered| + PIPESIZE
      ensures end == Broken ==> !readopen
      ensures end != Asleep ==> jobs == old(jobs) - {p} && writers == old(writers)
      ensures end == Asleep ==> writers == old(writers) + {p}
      ensures readers == if end == Broken then old(readers) else {}
    {
      hide WaitingOk;
      JobHere(jobs, readers, writers, |accepted| - |delivered|, readopen, writeopen, p);
      var src, start := jobs[p].src, jobs[p].i;
      var i := Fill(src, start);
      m := i - start;
      if i == |src| {
        WriterDone(jobs, readers, writers, old(|accepted| - |delivered|), |accepted| - |delivered|, readopen,
                   writeopen, p);
        readers := {};
        jobs := jobs - {p};
        end := Done;
      } else {
        WriterStuck(jobs, readers, writers, old(|accepted| - |delivered|), readopen, writeopen, p, i);
        if !readopen {
          jobs := jobs - {p};
          end := Broken;
        } else {
          readers := {};
          writers := writers + {p};
          jobs := jobs[p := Writing(src, i)];
          end := Asleep;
        }
      }
    }

    /** A turn of piperead: asleep on an empty pipe that may still be written, else the next bytes, as many as are
        there and wanted. None are returned to a call that wants some only at the end of the stream. */
    method ReadTurn(p: nat) returns (end: End, out: seq<byte>)
      requires Valid() && p in jobs && jobs[p].Reading? && p !in readers
      modifies `nread, `delivered, `jobs, `readers, `writers
      ensures Valid() && delivered == old(delivered) + out && end != Broken
      ensures end == Asleep <==> old(|accepted| == |delivered| && writeopen)
      ensures end == Asleep ==>
                out == [] && jobs == old(jobs) && readers == old(readers) + {p} && writers == old(writers)
      ensures end == Done ==> jobs == old(jobs) - {p} && readers == old(readers) && writers == {}
      ensures end == Done ==> |out| == Least(old(jobs)[p].n, |accepted| - |old(delivered)|)
      ensures end == Done && old(jobs)[p].n > 0 && out == [] ==> !writeopen && delivered == accepted
    {
      var n := jobs[p].n;
      out := [];
      WrapDistance(|delivered|, |accepted|);
      if nread == nwrite && writeopen {
        readers := readers + {p};
        return Asleep, [];
      }
      var i := 0;
      while i < n
        invariant 0 <= i && (i <= n || i == 0) && RingOk() && |out| == i
        invariant delivered == old(delivered) + out
        invariant jobs == old(jobs) && readers == old(readers) && writers == old(writers)
      {
        WrapDistance(|delivered|, |accepted|);
        if nread == nwrite {
          break;
        }
        var c := GetByte();
        out := out + [c];
        i := i + 1;
      }
      writers := {};
      jobs := jobs - {p};
      end := Done;
    }

    /** The last file of one end is closed: the sleepers at the other end wake. Freed when both are closed. */
    method Close(writable: bool) returns (freed: bool)
      requires Valid() && (if writable then writeopen else readopen)
      requires forall p :: p in jobs ==> jobs[p].Writing? != writable
      modifies `readopen, `writeopen, `readers, `writers
      ensures Valid() && freed == (!readopen && !writeopen)
      ensures writable ==> !writeopen && readopen == old(readopen) && readers == {} && writers == old(writers)
      ensures !writable ==> !readopen && writeopen == old(writeopen) && writers == {} && readers == old(readers)
    {
      if writable {
        writeopen := false;
        readers := {};
      } else {
        readopen := false;
        writers := {};
      }
      freed := !readopen && !writeopen;
    }

    ghost function State(): Moment
      reads this
    {
      Moment(accepted, delivered, jobs, readers, writers, readopen, writeopen)
    }

    /** One call or one turn of a call in progress; what cannot happen now is skipped, and only then. */
    method Step(e: Event)
      requires Valid()
      modifies this, data
      ensures Valid() && Stepped(old(State()), State(), e)
    {
      match e
      case Write(p, src) =>
        if p !in jobs && writeopen {
          jobs := jobs[p := Writing(src, 0)];
          DoWrite(p);
        }
      case Read(p, n) =>
        if p !in jobs && readopen {
          jobs := jobs[p := Reading(n)];
          DoRead(p);
        }
      case Resume(p) =>
        if p in jobs && p !in readers && p !in writers {
          if jobs[p].Writing? {
            DoWrite(p);
          } else {
            DoRead(p);
          }
        }
      case CloseEnd(writable) =>
        if (if writable then writeopen else readopen) && forall p :: p in jobs.Keys ==> jobs[p].Writing? != writable {
          var _ := Close(writable);
        }
    }

    method DoWrite(p: nat)
      requires Valid() && p in jobs && jobs[p].Writing? && p !in writers
      modifies data, `nwrite, `accepted, `jobs, `readers, `writers
      ensures Valid() && Wrote(old(State()), State(), p)
    {
      hide Wrap, WaitingOk;
      var _, m := WriteTurn(p);
    }

    method DoRead(p: nat)
      requires Valid() && p in jobs && jobs[p].Reading? && p !in readers
      modifies `nread, `delivered, `jobs, `readers, `writers
      ensures Valid() && Took(old(State()), State(), p)
    {
      hide Wrap, WaitingOk;
      var end, out := ReadTurn(p);
      if end == Done {
        assert delivered == accepted[..|delivered|];
      }
    }

    /** Whatever readers and writers do in whatever order, the bytes come out as they went in. Each state follows from
        the one before by what the event between them asks. */
    method Run(events: seq<Event>) returns (ghost trace: seq<Moment>)
      requires Valid()
      modifies this, data
      ensures Valid() && delivered <= accepted && old(accepted) <= accepted && old(delivered) <= delivered
      ensures Trace(trace, events) && trace[0] == old(State()) && trace[|events|] == State()
    {
      trace := [State()];
      for i := 0 to |events|
        invariant Valid() && old(accepted) <= accepted && old(delivered) <= delivered
        invariant Trace(trace, events[..i]) && trace[0] == old(State()) && trace[i] == State()
      {
        hide Wrap, WaitingOk, Stepped;
        Step(events[i]);
        StepGrows(trace[i], State(), events[i]);
        TraceNext(trace, events, i, State());
        trace := trace + [State()];
      }
      assert events[..|events|] == events;
    }

    /** Whoever sleeps waits for the other side, and the other side is open and awake. */
    lemma NeverBothAsleep()
      requires Valid()
      ensures readers != {} ==> writeopen && writers == {}
      ensures writers != {} ==> readopen && readers == {}
    {
    }
  }

  /** What the callers see of a pipe. */
  datatype Moment = Moment(accepted: seq<byte>, delivered: seq<byte>, jobs: map<nat, Job>, readers: set<nat>,
                           writers: set<nat>, readopen: bool, writeopen: bool)

  /** A turn of the write that `p` has in progress: as many of its next bytes go in as there is room for. Then it is
      done, or breaks off with the read end closed, or sleeps; waiting readers are woken unless it breaks off. */
  predicate Wrote(s: Moment, t: Moment, p: nat) {
    && p in s.jobs && s.jobs[p].Writing? && |s.delivered| <= |s.accepted| <= |s.delivered| + 512
    && var src, i := s.jobs[p].src, s.jobs[p].i;
       && i <= |src|
       && var m := Least(|src| - i, |s.delivered| + 512 - |s.accepted|);
          var put := s.(accepted := s.accepted + src[i..i + m]);
          t == if i + m == |src| then put.(jobs := s.jobs - {p}, readers := {})
               else if !s.readopen then put.(jobs := s.jobs - {p})
               else put.(jobs := s.jobs[p := Writing(src, i + m)], readers := {}, writers := s.writers + {p})
  }

  /** A turn of the read that `p` has in progress: it sleeps on an empty pipe that may still be written; else it gets
      the oldest bytes, as many as are there and wanted, and waiting writers are woken. */
  predicate Took(s: Moment, t: Moment, p: nat) {
    && p in s.jobs && s.jobs[p].Reading? && |s.delivered| <= |s.accepted|
    && if |s.accepted| == |s.delivered| && s.writeopen then t == s.(readers := s.readers + {p})
       else
         var m := Least(s.jobs[p].n, |s.accepted| - |s.delivered|);
         t == s.(delivered := s.delivered + s.accepted[|s.delivered|..|s.delivered| + m], jobs := s.jobs - {p},
                 writers := {})
  }

  predicate Stepped(s: Moment, t: Moment, e: Event) {
    match e
    case Write(p, src) =>
      if p !in s.jobs && s.writeopen then Wrote(s.(jobs := s.jobs[p := Writing(src, 0)]), t, p) else t == s
    case Read(p, n) =>
      if p !in s.jobs && s.readopen then Took(s.(jobs := s.jobs[p := Reading(n)]), t, p) else t == s
    case Resume(p) =>
      if p in s.jobs && p !in s.readers && p !in s.writers then
        if s.jobs[p].Writing? then Wrote(s, t, p) else Took(s, t, p)
      else t == s
    case CloseEnd(writable) =>
      t == if (exists p :: p in s.jobs.Keys && s.jobs[p].Writing? == writable) then s
           else if writable && s.writeopen then s.(writeopen := false, readers := {})
           else if !writable && s.readopen then s.(readopen := false, writers := {})
           else s
  }

  ghost predicate Trace(trace: seq<Moment>, events: seq<Event>) {
    |trace| == |events| + 1 && forall k :: 0 <= k < |events| ==> Stepped(trace[k], trace[k + 1], events[k])
  }

  lemma TraceNext(trace: seq<Moment>, events: seq<Event>, k: nat, t: Moment)
    requires k < |events| && Trace(trace, events[..k]) && Stepped(trace[k], t, events[k])
    ensures Trace(trace + [t], events[..k + 1])
  {
    hide Stepped;
  }

  lemma StepGrows(s: Moment, t: Moment, e: Event)
    requires Stepped(s, t, e)
    ensures s.accepted <= t.accepted && s.delivered <= t.delivered
  {
  }

  function Least(n: int, m: int): int {
    if n <= 0 then 0 else if n <= m then n else m
  }
}
