/**
 The quota resets the agent performs. What a run leaves behind is the reset log, for every user the first
 and the latest quota period it was asked for, and the periods the fingerprint file remembers.
 */
module Quotas {
  import opened TelemtUsers

  datatype Log = Log(resets: seq<(Name, nat)>, first: map<Name, nat>, latest: map<Name, nat>)

  /** A period that never moves back, 0 standing for none. */
  predicate MovesOn(latest: map<Name, nat>, d: Desired) {
    d.quotaReset == 0 || d.name !in latest || latest[d.name] <= d.quotaReset
  }

  function Latest(latest: map<Name, nat>, d: Desired): map<Name, nat> {
    if d.quotaReset == 0 then latest else latest[d.name := d.quotaReset]
  }

  function Asked(log: Log, d: Desired): Log {
    log.(
      first := if d.quotaReset == 0 || d.name in log.first then log.first else log.first[d.name := d.quotaReset],
      latest := Latest(log.latest, d))
  }

  ghost predicate Remembered(log: Log, n: Name, period: nat) {
    n in log.first && n in log.latest && 0 < log.first[n] <= period <= log.latest[n]
  }

  ghost predicate ResetSound(log: Log, quotas: map<Name, nat>, i: nat)
    requires i < |log.resets|
  {
    var (n, period) := log.resets[i];
    && Remembered(log, n, period) && log.first[n] < period
    && (n in quotas ==> period <= quotas[n])
    && forall j :: 0 <= j < i && log.resets[j].0 == n ==> log.resets[j].1 < period
  }

  /** Every reset went into a later period than any before it of that user, and never into the first. */
  ghost predicate Sound(log: Log, quotas: map<Name, nat>) {
    && log.first.Keys == log.latest.Keys && (forall n :: n in log.latest ==> Remembered(log, n, log.latest[n]))
    && (forall n :: n in quotas ==> Remembered(log, n, quotas[n]))
    && (forall i :: 0 <= i < |log.resets| ==> ResetSound(log, quotas, i))
  }

  /** A user is reset at most once per period, and never for the first period it was asked for. */
  lemma ResetOncePerPeriod(log: Log, quotas: map<Name, nat>, i: nat, j: nat)
    requires Sound(log, quotas) && i < j < |log.resets|
    ensures log.resets[i] != log.resets[j]
    ensures log.resets[i].0 in log.first && log.resets[i].1 > log.first[log.resets[i].0]
  {
    assert ResetSound(log, quotas, i) && ResetSound(log, quotas, j);
  }

  /** No user was reset twice for one period, or for the first one it was asked for. */
  ghost predicate OncePerPeriod(log: Log) {
    && (forall i, j :: 0 <= i < j < |log.resets| ==> log.resets[i] != log.resets[j])
    && (forall i :: 0 <= i < |log.resets| ==> log.resets[i].0 in log.first && log.resets[i].1 > log.first[log.resets[i].0])
  }

  lemma SoundIsOnce(log: Log, quotas: map<Name, nat>)
    requires Sound(log, quotas)
    ensures OncePerPeriod(log)
  {
    forall i, j | 0 <= i < j < |log.resets|
      ensures log.resets[i] != log.resets[j]
    {
      ResetOncePerPeriod(log, quotas, i, j);
    }
    forall i | 0 <= i < |log.resets|
      ensures log.resets[i].0 in log.first && log.resets[i].1 > log.first[log.resets[i].0]
    {
      assert ResetSound(log, quotas, i);
    }
  }

  /** Asking for a user's period again, or for another user's, is no step back. */
  lemma AskedMovesOn(latest: map<Name, nat>, d: Desired, e: Desired)
    requires MovesOn(latest, d) && MovesOn(latest, e) && (d.name == e.name ==> d == e)
    ensures MovesOn(Latest(latest, d), e)
  {
  }

  lemma AskedIsSound(log: Log, quotas: map<Name, nat>, d: Desired)
    requires Sound(log, quotas) && MovesOn(log.latest, d)
    ensures Sound(Asked(log, d), quotas)
    ensures d.quotaReset > 0 ==> d.name in Asked(log, d).latest && Asked(log, d).latest[d.name] == d.quotaReset
  {
    var after := Asked(log, d);
    forall n | n in log.latest
      ensures Remembered(after, n, after.latest[n])
    {
      assert Remembered(log, n, log.latest[n]);
    }
    forall n | n in quotas
      ensures Remembered(after, n, quotas[n])
    {
      assert Remembered(log, n, quotas[n]);
    }
    forall i | 0 <= i < |log.resets|
      ensures ResetSound(after, quotas, i)
    {
      assert ResetSound(log, quotas, i);
    }
  }

  /** A reset into a later period than the file remembers, and its checkpoint. */
  lemma ResetIsSound(log: Log, quotas: map<Name, nat>, n: Name, period: nat)
    requires Sound(log, quotas) && n in quotas && quotas[n] < period && n in log.latest && log.latest[n] == period
    ensures Sound(log.(resets := log.resets + [(n, period)]), quotas[n := period])
  {
    var after := log.(resets := log.resets + [(n, period)]);
    var next := quotas[n := period];
    forall m | m in next
      ensures Remembered(after, m, next[m])
    {
      assert Remembered(log, n, quotas[n]);
      if m != n {
        assert Remembered(log, m, quotas[m]);
      }
    }
    forall m | m in after.latest
      ensures Remembered(after, m, after.latest[m])
    {
      assert Remembered(log, m, log.latest[m]);
    }
    forall i | 0 <= i < |after.resets|
      ensures ResetSound(after, next, i)
    {
      assert Remembered(log, n, quotas[n]);
      assert i < |log.resets| ==> after.resets[i] == log.resets[i] && ResetSound(log, quotas, i);
      forall j | 0 <= j < i && after.resets[j].0 == after.resets[i].0
        ensures after.resets[j].1 < after.resets[i].1
      {
        assert ResetSound(log, quotas, j);
      }
    }
  }

  /** The file may take over the latest periods, for whichever users it keeps. */
  lemma LatestIsSound(log: Log, quotas: map<Name, nat>, next: map<Name, nat>)
    requires Sound(log, quotas)
    requires forall n :: n in next ==> n in log.latest && next[n] == log.latest[n]
    ensures Sound(log, next)
  {
    forall i | 0 <= i < |log.resets|
      ensures ResetSound(log, next, i)
    {
      assert ResetSound(log, quotas, i);
    }
    forall n | n in next
      ensures Remembered(log, n, next[n])
    {
      assert Remembered(log, n, log.latest[n]);
    }
  }
}
