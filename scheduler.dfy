/**
 * `fechamento_auto` of app.py, the background loop that closes the day: each
 * iteration reads the local clock, runs `fechar_dia` for today when the time
 * is 23:59, sleeping 70 s more after a closing, then sleeps 30 s. Time is
 * local seconds since an epoch that starts at midnight, so the day number is
 * `t / 86400`; `time.sleep` is taken to wake exactly on time.
 */
module Scheduler {
  import opened Clock
  import opened Ledger
  import opened Database

  const CloseHour: int := 23
  const CloseMinute: int := 59
  /** Seconds slept after a closing, before the regular poll sleep. */
  const HoldSleep: int := 70
  /** Seconds slept at the end of every iteration. */
  const PollSleep: int := 30

  function DayOf(t: int): int
  {
    t / SecondsPerDay
  }

  function TimeOf(t: int): SecondOfDay
  {
    t % SecondsPerDay
  }

  /** What `datetime.now()` reads at t; `dateText` stands for `strftime("%Y-%m-%d")` of a day number. */
  function LocalTime(t: int, dateText: int -> string): DateTime
  {
    DateTime(dateText(DayOf(t)), TimeOf(t))
  }

  /** `agora.hour == 23 and agora.minute == 59`. */
  predicate ClosingMinute(t: int)
    ensures ClosingMinute(t) <==> 23 * 3600 + 59 * 60 <= TimeOf(t) < 23 * 3600 + 60 * 60
  {
    Hour(TimeOf(t)) == CloseHour && Minute(TimeOf(t)) == CloseMinute
  }

  /** The first second of day d's closing minute. */
  function WindowOpens(d: int): int
  {
    d * SecondsPerDay + 86340
  }

  lemma DayAndTime(t: int)
    ensures t == SecondsPerDay * DayOf(t) + TimeOf(t)
  {
  }

  /** The closing minute is the last 60 seconds of a day. */
  lemma ClosingMinuteIsLastMinute(t: int)
    ensures ClosingMinute(t) <==> TimeOf(t) >= 86340
    ensures ClosingMinute(t) <==> WindowOpens(DayOf(t)) <= t
  {
  }

  /** One iteration: whether it closes the day, and when the next one reads the clock. */
  datatype Tick = Tick(fired: bool, next: int)

  function Step(t: int): (k: Tick)
    ensures k.fired <==> TimeOf(t) >= 86340
    ensures k.next == t + (if k.fired then 100 else 30)
  {
    ClosingMinuteIsLastMinute(t);
    if ClosingMinute(t) then Tick(true, t + HoldSleep + PollSleep) else Tick(false, t + PollSleep)
  }

  /** After a closing the loop next wakes on the following day, outside its closing minute. */
  lemma FiringEndsTheDay(t: int)
    requires Step(t).fired
    ensures DayOf(Step(t).next) == DayOf(t) + 1
    ensures !Step(Step(t).next).fired
  {
  }

  /** An iteration never lowers the day number. */
  lemma StepKeepsDayOrder(t: int)
    ensures DayOf(t) <= DayOf(Step(t).next)
  {
  }

  /**
   * The only iteration that passes the end of day d's closing minute is one
   * that closes day d: a 30 s poll cannot jump over a 60 s window.
   */
  lemma StepCoversWindow(t: int, d: int)
    requires t < WindowOpens(d) + 60 <= Step(t).next
    ensures Step(t).fired && DayOf(t) == d
  {
    DayAndTime(t);
    ClosingMinuteIsLastMinute(t);
    assert DayOf(t) == d;
  }

  /**
   * `iterations` rounds of the loop from time `start`: the times at which it
   * closed the day, and the time it reads the clock next. Every closing falls
   * in a closing minute, no day is closed twice, and every day whose closing
   * minute lies wholly inside the run is closed.
   */
  method RunSchedule(start: int, iterations: nat) returns (fires: seq<int>, now: int)
    ensures start <= now
    ensures forall i :: 0 <= i < |fires| ==> start <= fires[i] < now && ClosingMinute(fires[i])
    ensures forall i, j :: 0 <= i < j < |fires| ==> DayOf(fires[i]) < DayOf(fires[j])
    ensures forall d :: start <= WindowOpens(d) && WindowOpens(d) + 60 <= now ==>
      exists i :: 0 <= i < |fires| && DayOf(fires[i]) == d
  {
    fires, now := [], start;
    for k := 0 to iterations
      invariant start <= now
      invariant forall i :: 0 <= i < |fires| ==> start <= fires[i] < now && ClosingMinute(fires[i])
      invariant forall i, j :: 0 <= i < j < |fires| ==> DayOf(fires[i]) < DayOf(fires[j])
      invariant forall i :: 0 <= i < |fires| ==> DayOf(fires[i]) < DayOf(now)
      invariant forall d :: start <= WindowOpens(d) && WindowOpens(d) + 60 <= now ==>
        exists i :: 0 <= i < |fires| && DayOf(fires[i]) == d
    {
      var tick := Step(now);
      ghost var before := now;
      ghost var done := fires;
      StepKeepsDayOrder(now);
      if tick.fired {
        ClosingMinuteIsLastMinute(now);
        FiringEndsTheDay(now);
        fires := fires + [now];
      }
      now := tick.next;
      forall d | start <= WindowOpens(d) && WindowOpens(d) + 60 <= now
        ensures exists i :: 0 <= i < |fires| && DayOf(fires[i]) == d
      {
        if WindowOpens(d) + 60 <= before {
          var i :| 0 <= i < |done| && DayOf(done[i]) == d;
          assert fires[i] == done[i];
        } else {
          StepCoversWindow(before, d);
          assert fires[|fires| - 1] == before;
        }
      }
    }
  }

  /**
   * One iteration of `fechamento_auto` against the database: in the closing
   * minute it runs `fechar_dia` for the current date, otherwise it changes
   * nothing; it returns when the next iteration reads the clock.
   */
  method AutoCloseStep(db: Database, t: int, dateText: int -> string) returns (next: int)
    requires db.Valid()
    modifies db`fechamentos
    ensures db.Valid()
    ensures next == Step(t).next
    ensures var at := LocalTime(t, dateText);
      db.fechamentos == if Step(t).fired then old(db.fechamentos)[at.date := Snapshot(db.pix, at.date, at)]
                        else old(db.fechamentos)
  {
    var agora := LocalTime(t, dateText);
    if ClosingMinute(t) {
      db.FecharDia(agora.date, agora);
      next := t + HoldSleep;
    } else {
      next := t;
    }
    next := next + PollSleep;
  }
}
