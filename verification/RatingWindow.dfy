/** RatingRepository: the speed list kept with LPUSH and LTRIM against the whole history. */
module RatingWindow {
  import opened Records

  type Window = w: nat | w > 0 witness 1

  /** When an order was taken and when it was closed, in whole seconds. */
  datatype Sample = Sample(taken: int, closed: int)

  datatype Counts = Counts(complete: int, incomplete: int, notTaken: int)

  datatype Stats = Stats(speed: Option<int>, counts: Counts)

  function First<T>(s: seq<T>, n: nat): (r: seq<T>)
    ensures r == s[..if n < |s| then n else |s|]
  {
    s[..if n < |s| then n else |s|]
  }

  /** All samples of a history, newest first. */
  function NewestFirst(history: seq<Sample>): (r: seq<Sample>)
    ensures |r| == |history| && forall k :: 0 <= k < |r| ==> r[k] == history[|history| - 1 - k]
  {
    if history == [] then [] else [history[|history| - 1]] + NewestFirst(history[..|history| - 1])
  }

  function TotalSeconds(samples: seq<Sample>): int {
    if samples == [] then 0
    else TotalSeconds(samples[..|samples| - 1])
         + samples[|samples| - 1].closed - samples[|samples| - 1].taken
  }

  /** The floored mean; Dafny's division by a positive number floors, as Python's does. */
  function MeanSpeed(samples: seq<Sample>): Option<int> {
    if samples == [] then None else Some(TotalSeconds(samples) / |samples|)
  }

  /** Totals add up, and a single sample counts the seconds from its taking to its closing. */
  lemma {:induction false} TotalsAdd(a: seq<Sample>, b: seq<Sample>)
    ensures TotalSeconds(a + b) == TotalSeconds(a) + TotalSeconds(b)
  {
    if b == [] {
      assert a + b == a;
    } else {
      assert (a + b)[..|a + b| - 1] == a + b[..|b| - 1];
      TotalsAdd(a, b[..|b| - 1]);
    }
  }

  lemma SpeedOfOne(sample: Sample)
    ensures TotalSeconds([sample]) == sample.closed - sample.taken
    ensures MeanSpeed([sample]) == Some(sample.closed - sample.taken)
  {
    assert [sample][..0] == [];
    assert TotalSeconds([sample][..0]) == 0;
  }

  /** Every sample took at least `lo` and at most `hi` seconds. */
  ghost predicate Within(samples: seq<Sample>, lo: int, hi: int) {
    forall i :: 0 <= i < |samples| ==> lo <= samples[i].closed - samples[i].taken <= hi
  }

  lemma {:induction false} TotalWithin(samples: seq<Sample>, lo: int, hi: int)
    requires Within(samples, lo, hi)
    ensures lo * |samples| <= TotalSeconds(samples) <= hi * |samples|
  {
    if samples != [] {
      TotalWithin(samples[..|samples| - 1], lo, hi);
    }
  }

  /** The mean lies between the bounds of the samples. */
  lemma MeanWithin(samples: seq<Sample>, lo: int, hi: int)
    requires samples != [] && Within(samples, lo, hi)
    ensures lo <= MeanSpeed(samples).value <= hi
  {
    TotalWithin(samples, lo, hi);
    var n, total := |samples|, TotalSeconds(samples);
    FloorWithin(total, n, lo, hi);
  }

  lemma FloorWithin(total: int, n: nat, lo: int, hi: int)
    requires n > 0 && lo * n <= total <= hi * n
    ensures lo <= total / n <= hi
  {
    var q := total / n;
    assert total == q * n + total % n;
    assert q < lo ==> (q + 1) * n <= lo * n;
    assert q > hi ==> (hi + 1) * n <= q * n;
  }

  lemma NewestFirstPush(history: seq<Sample>, sample: Sample)
    ensures NewestFirst(history + [sample]) == [sample] + NewestFirst(history)
  {
    assert (history + [sample])[..|history|] == history;
  }

  /** Trimming after every push keeps exactly the newest samples. */
  lemma PushThenTrim(history: seq<Sample>, sample: Sample, window: Window)
    ensures First([sample] + First(NewestFirst(history), window), window)
         == First(NewestFirst(history + [sample]), window)
  {
    NewestFirstPush(history, sample);
  }

  /** The mean really is the floor of the exact quotient. */
  lemma MeanSpeedFloors(samples: seq<Sample>)
    requires samples != []
    ensures
      var mean := MeanSpeed(samples).value;
      mean * |samples| <= TotalSeconds(samples) < (mean + 1) * |samples|
  {
  }

  /** Replaying completions, oldest first, with a trim after each. */
  function Replayed(entries: seq<Sample>, history: seq<Sample>, window: Window): seq<Sample>
    decreases |history|
  {
    if history == [] then entries else Replayed(First([history[0]] + entries, window), history[1..], window)
  }

  lemma {:induction false} ReplayedFrom(done: seq<Sample>, history: seq<Sample>, window: Window)
    ensures Replayed(First(NewestFirst(done), window), history, window)
         == First(NewestFirst(done + history), window)
    decreases |history|
  {
    if history == [] {
      assert done + history == done;
    } else {
      PushThenTrim(done, history[0], window);
      ReplayedFrom(done + [history[0]], history[1..], window);
      assert (done + [history[0]]) + history[1..] == done + history;
    }
  }

  /** Rebuilding from newest-first samples stores the same list as replaying the completions. */
  lemma RebuildEqualsReplay(history: seq<Sample>, window: Window)
    ensures First(NewestFirst(history), window) == Replayed([], history, window)
  {
    ReplayedFrom([], history, window);
    assert [] + history == history;
    assert NewestFirst([]) == [];
  }

  function SamplesOf(lists: map<UserId, seq<Sample>>, user: UserId): (samples: seq<Sample>)
    ensures user in lists ==> samples == lists[user]
    ensures user !in lists ==> samples == []
  {
    if user in lists then lists[user] else []
  }

  function CountsOf(counts: map<UserId, Counts>, user: UserId): (c: Counts)
    ensures user in counts ==> c == counts[user]
    ensures user !in counts ==> c.complete == 0 && c.incomplete == 0 && c.notTaken == 0
  {
    if user in counts then counts[user] else Counts(0, 0, 0)
  }

  /** Each stored list is the newest `window` samples of the user's whole history. */
  ghost predicate Kept(speed: map<UserId, seq<Sample>>, history: map<UserId, seq<Sample>>, window: Window) {
    forall u :: SamplesOf(speed, u) == First(NewestFirst(SamplesOf(history, u)), window)
  }

  /** What a rating lookup is to return: the mean over the newest samples, and the counters. */
  ghost function StatsOf(
      history: map<UserId, seq<Sample>>, counts: map<UserId, Counts>, window: Window, user: UserId): Stats
  {
    Stats(MeanSpeed(First(NewestFirst(SamplesOf(history, user)), window)), CountsOf(counts, user))
  }

  /** What a lookup's speed means: none without completions, and otherwise within the bounds of the newest. */
  lemma SpeedsWithin(
      history: map<UserId, seq<Sample>>, counts: map<UserId, Counts>, window: Window, user: UserId)
    ensures
      var stats := StatsOf(history, counts, window, user);
      && (stats.speed.None? <==> user !in history || history[user] == [])
      && (stats.speed.Some? ==> forall lo, hi ::
            Within(First(NewestFirst(history[user]), window), lo, hi) ==> lo <= stats.speed.value <= hi)
  {
    if user in history && history[user] != [] {
      var newest := First(NewestFirst(history[user]), window);
      forall lo, hi | Within(newest, lo, hi) ensures lo <= MeanSpeed(newest).value <= hi {
        MeanWithin(newest, lo, hi);
      }
    }
  }

  lemma KeptAfter(
      speed: map<UserId, seq<Sample>>, speed': map<UserId, seq<Sample>>, history: map<UserId, seq<Sample>>,
      window: Window, user: UserId, orders: seq<Sample>)
    requires Kept(speed, history, window)
    requires forall u :: u != user ==> SamplesOf(speed', u) == SamplesOf(speed, u)
    requires SamplesOf(speed', user) == First(NewestFirst(orders), window)
    ensures Kept(speed', history[user := orders], window)
  {
    forall u ensures SamplesOf(speed', u) == First(NewestFirst(SamplesOf(history[user := orders], u)), window) {
      if u != user {
        assert SamplesOf(speed, u) == First(NewestFirst(SamplesOf(history, u)), window);
      }
    }
  }

  lemma FirstTwice<T>(s: seq<T>, n: nat)
    ensures First(First(s, n), n) == First(s, n)
  {
  }

  class RatingRepository {
    const window: Window
    var speed: map<UserId, seq<Sample>>
    var counts: map<UserId, Counts>
    ghost var history: map<UserId, seq<Sample>>

    constructor (window: Window)
      ensures Valid() && this.window == window && history == map[] && counts == map[]
    {
      this.window := window;
      speed, counts, history := map[], map[], map[];
    }

    ghost predicate Valid()
      reads `speed, `history
    {
      Kept(speed, history, window)
    }

    /** `record_completion`: LPUSH, LTRIM, HINCRBY in one MULTI. */
    method RecordCompletion(user: UserId, taken: int, closed: int)
      requires Valid()
      modifies this
      ensures Valid()
      ensures history == old(history)[user := SamplesOf(old(history), user) + [Sample(taken, closed)]]
      ensures counts ==
        old(counts)[user := CountsOf(old(counts), user).(complete := CountsOf(old(counts), user).complete + 1)]
    {
      PushThenTrim(SamplesOf(history, user), Sample(taken, closed), window);
      ghost var before := speed;
      var pushed := [Sample(taken, closed)] + SamplesOf(speed, user);
      speed := speed[user := First(pushed, window)];
      KeptAfter(before, speed, history, window, user, SamplesOf(history, user) + [Sample(taken, closed)]);
      history := history[user := SamplesOf(history, user) + [Sample(taken, closed)]];
      counts := counts[user := CountsOf(counts, user).(complete := CountsOf(counts, user).complete + 1)];
    }

    /** `record_cancellation`. */
    method RecordCancellation(user: UserId)
      modifies `counts
      ensures counts ==
        old(counts)[user := CountsOf(old(counts), user).(incomplete := CountsOf(old(counts), user).incomplete + 1)]
    {
      counts := counts[user := CountsOf(counts, user).(incomplete := CountsOf(counts, user).incomplete + 1)];
    }

    /** `record_not_taken`: one increment for each time a user is named. */
    method RecordNotTaken(users: seq<UserId>)
      modifies `counts
      ensures forall u ::
        CountsOf(counts, u)
        == CountsOf(old(counts), u).(notTaken := CountsOf(old(counts), u).notTaken + multiset(users)[u])
    {
      for i := 0 to |users|
        invariant forall u ::
          CountsOf(counts, u)
          == CountsOf(old(counts), u).(notTaken := CountsOf(old(counts), u).notTaken + multiset(users[..i])[u])
      {
        assert users[..i + 1] == users[..i] + [users[i]];
        counts := counts[users[i] := CountsOf(counts, users[i]).(notTaken := CountsOf(counts, users[i]).notTaken + 1)];
      }
      assert users[..|users|] == users;
    }

    /** `replace_user_stats`; the samples come newest first, from the completions of `orders`. */
    method ReplaceUserStats(user: UserId, stats: Counts, samples: seq<Sample>, ghost orders: seq<Sample>)
      requires Valid() && samples == NewestFirst(orders)
      modifies this
      ensures Valid() && history == old(history)[user := orders] && counts == old(counts)[user := stats]
      ensures SamplesOf(speed, user) == Replayed([], orders, window)
    {
      counts := counts[user := stats];
      RebuildEqualsReplay(orders, window);
      ghost var before := speed;
      speed := speed - {user};
      var entries := First(samples, window);
      if entries != [] {
        speed := speed[user := entries];
      }
      KeptAfter(before, speed, history, window, user, orders);
      history := history[user := orders];
    }

    /** `_avg_speed`. */
    method AvgSpeed(entries: seq<Sample>) returns (mean: Option<int>)
      ensures mean == MeanSpeed(entries)
      ensures mean.None? <==> entries == []
      ensures mean.Some? ==> forall lo, hi :: Within(entries, lo, hi) ==> lo <= mean.value <= hi
      ensures |entries| == 1 ==> mean == Some(entries[0].closed - entries[0].taken)
    {
      forall lo, hi | entries != [] && Within(entries, lo, hi)
        ensures MeanSpeed(entries).Some? && lo <= MeanSpeed(entries).value <= hi
      {
        MeanWithin(entries, lo, hi);
      }
      if |entries| == 1 {
        SpeedOfOne(entries[0]);
        assert entries == [entries[0]];
      }
      if entries == [] {
        return None;
      }
      var total := 0;
      for i := 0 to |entries|
        invariant total == TotalSeconds(entries[..i])
      {
        assert entries[..i + 1][..i] == entries[..i];
        total := total + entries[i].closed - entries[i].taken;
      }
      assert entries[..|entries|] == entries;
      return Some(total / |entries|);
    }

    /** `get`; LRANGE cuts the stored list again. */
    method Get(user: UserId) returns (stats: Stats)
      requires Valid()
      ensures stats == StatsOf(history, counts, window, user)
      ensures stats.speed.None? <==> user !in history || history[user] == []
      ensures stats.speed.Some? ==> forall lo, hi ::
        Within(First(NewestFirst(history[user]), window), lo, hi) ==> lo <= stats.speed.value <= hi
      ensures stats.counts == if user in counts then counts[user] else Counts(0, 0, 0)
    {
      SpeedsWithin(history, counts, window, user);
      FirstTwice(NewestFirst(SamplesOf(history, user)), window);
      var mean := AvgSpeed(First(SamplesOf(speed, user), window));
      return Stats(mean, CountsOf(counts, user));
    }

    /** `get_many` agrees with `get` for every user asked for. */
    method GetMany(users: seq<UserId>) returns (stats: map<UserId, Stats>)
      requires Valid()
      ensures stats.Keys == set u | u in users
      ensures forall u :: u in stats ==> stats[u] == StatsOf(history, counts, window, u)
      ensures forall u :: u in stats ==> (stats[u].speed.None? <==> u !in history || history[u] == [])
      ensures forall u :: u in stats && stats[u].speed.Some? ==> forall lo, hi ::
        Within(First(NewestFirst(history[u]), window), lo, hi) ==> lo <= stats[u].speed.value <= hi
      ensures forall u :: u in stats ==> stats[u].counts == if u in counts then counts[u] else Counts(0, 0, 0)
    {
      forall u
        ensures
          var stats := StatsOf(history, counts, window, u);
          && (stats.speed.None? <==> u !in history || history[u] == [])
          && (stats.speed.Some? ==> forall lo, hi ::
                Within(First(NewestFirst(history[u]), window), lo, hi) ==> lo <= stats.speed.value <= hi)
      {
        SpeedsWithin(history, counts, window, u);
      }
      stats := map[];
      for i := 0 to |users|
        invariant stats.Keys == set u | u in users[..i]
        invariant forall u :: u in stats ==> stats[u] == StatsOf(history, counts, window, u)
      {
        var user := users[i];
        FirstTwice(NewestFirst(SamplesOf(history, user)), window);
        var mean := AvgSpeed(First(SamplesOf(speed, user), window));
        stats := stats[user := Stats(mean, CountsOf(counts, user))];
        assert users[..i + 1] == users[..i] + [user];
      }
    }
  }
}
