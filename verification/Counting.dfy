/** How the counts that the invariants speak of change with each kind of table update. */
module Counting {
  import opened Records
  import opened Protocol

  function RowsOf(offers: map<Row, OfferStatus>, user: UserId, status: OfferStatus): set<Row> {
    set row | row in offers && offers[row] == status && row.1 == user
  }

  function HeldFor(sweep: map<Handling, Phase>, user: UserId): set<Handling> {
    set h | h in sweep && sweep[h].Reserved? && sweep[h].user == user
  }

  function One(b: bool): nat { if b then 1 else 0 }

  lemma RowUpdate(offers: map<Row, OfferStatus>, row: Row, status: OfferStatus, u: UserId, s: OfferStatus)
    ensures |RowsOf(offers[row := status], u, s)|
         == |RowsOf(offers, u, s)| - One(row in offers && offers[row] == s && row.1 == u)
            + One(status == s && row.1 == u)
  {
    var before, after := RowsOf(offers, u, s), RowsOf(offers[row := status], u, s);
    if status == s && row.1 == u {
      assert after == before + {row};
    } else {
      assert after == before - {row};
    }
  }

  lemma OrderUpdate(orders: map<OrderId, OrderRow>, o: OrderId, row: OrderRow, u: UserId, s: OrderStatus)
    ensures |OrdersOf(orders[o := row], u, s)|
         == |OrdersOf(orders, u, s)| - One(o in orders && orders[o].status == s && orders[o].takenBy == Some(u))
            + One(row.status == s && row.takenBy == Some(u))
  {
    var before, after := OrdersOf(orders, u, s), OrdersOf(orders[o := row], u, s);
    if row.status == s && row.takenBy == Some(u) {
      assert after == before + {o};
    } else {
      assert after == before - {o};
    }
  }

  lemma HeldUpdate(sweep: map<Handling, Phase>, h: Handling, phase: Phase, u: UserId)
    ensures |HeldFor(sweep[h := phase], u)|
         == |HeldFor(sweep, u)| - One(h in sweep && sweep[h].Reserved? && sweep[h].user == u)
            + One(phase.Reserved? && phase.user == u)
  {
    var before, after := HeldFor(sweep, u), HeldFor(sweep[h := phase], u);
    if phase.Reserved? && phase.user == u {
      assert after == before + {h};
    } else {
      assert after == before - {h};
    }
  }

  /** Two sweeps' bookkeeping with the same reservations. */
  lemma HeldSame(sweep: map<Handling, Phase>, sweep': map<Handling, Phase>, u: UserId)
    requires forall h :: h in sweep && sweep[h].Reserved? ==> h in sweep' && sweep'[h] == sweep[h]
    requires forall h :: h in sweep' && sweep'[h].Reserved? ==> h in sweep && sweep[h] == sweep'[h]
    ensures HeldFor(sweep', u) == HeldFor(sweep, u)
  {
  }

  ghost predicate Distinct(rows: seq<Row>) {
    forall i, j :: 0 <= i < j < |rows| ==> rows[i] != rows[j]
  }

  /** A release batch names a user as often as that user has rows in the statement's result. */
  lemma {:induction false} UsersCount(rows: seq<Row>, u: UserId)
    requires Distinct(rows)
    ensures multiset(Users(rows))[u] == |set row | row in rows && row.1 == u|
  {
    if rows != [] {
      var rest := rows[1..];
      UsersCount(rest, u);
      HereSplits(rows, u);
    } else {
      assert (set row | row in rows && row.1 == u) == {};
    }
  }

  lemma HereSplits(rows: seq<Row>, u: UserId)
    requires Distinct(rows) && rows != []
    ensures Distinct(rows[1..])
    ensures |set row | row in rows && row.1 == u|
         == One(rows[0].1 == u) + |set row | row in rows[1..] && row.1 == u|
  {
    var here := set row | row in rows && row.1 == u;
    var later := set row | row in rows[1..] && row.1 == u;
    assert forall i :: 0 <= i < |rows| - 1 ==> rows[1..][i] == rows[i + 1];
    assert rows[0] !in later;
    if rows[0].1 == u {
      assert here == later + {rows[0]};
    } else {
      assert here == later;
    }
  }

  /** Expiring offered rows moves each of them from the offered to the expired count of its user. */
  lemma ExpireCounts(offers: map<Row, OfferStatus>, rows: seq<Row>, u: UserId)
    requires Distinct(rows) && forall row :: row in rows ==> IsOffered(offers, row)
    ensures |RowsOf(WithExpired(offers, rows), u, Offered)|
         == |RowsOf(offers, u, Offered)| - multiset(Users(rows))[u]
    ensures |RowsOf(WithExpired(offers, rows), u, Expired)|
         == |RowsOf(offers, u, Expired)| + multiset(Users(rows))[u]
    ensures RowsOf(WithExpired(offers, rows), u, OfferTaken) == RowsOf(offers, u, OfferTaken)
  {
    UsersCount(rows, u);
    var mine := set row | row in rows && row.1 == u;
    assert mine <= RowsOf(offers, u, Offered);
    assert RowsOf(WithExpired(offers, rows), u, Offered) == RowsOf(offers, u, Offered) - mine;
    assert RowsOf(WithExpired(offers, rows), u, Expired) == RowsOf(offers, u, Expired) + mine;
  }

  lemma {:induction false} IncrementedAt(counters: map<UserId, int>, users: seq<UserId>, u: UserId)
    ensures At(Incremented(counters, users), u) == At(counters, u) + multiset(users)[u]
    decreases |users|
  {
    if users != [] {
      IncrementedAt(counters[users[0] := At(counters, users[0]) + 1], users[1..], u);
      assert users == [users[0]] + users[1..];
    }
  }

  /** While no key is asked for more than it holds, the floor at 0 changes nothing. */
  lemma {:induction false} ReleasedAt(counters: map<UserId, int>, users: seq<UserId>, u: UserId)
    requires forall v :: multiset(users)[v] <= At(counters, v)
    decreases |users|
    ensures At(Released(counters, users), u) == At(counters, u) - multiset(users)[u]
  {
    if users != [] {
      var first, rest := users[0], users[1..];
      assert users == [first] + rest;
      assert multiset(users)[first] >= 1;
      var next := counters[first := At(counters, first) - 1];
      forall v ensures multiset(rest)[v] <= At(next, v) {
        assert multiset(users)[v] <= At(counters, v);
        assert multiset(users)[v] == multiset([first])[v] + multiset(rest)[v];
      }
      ReleasedAt(next, rest, u);
    }
  }

  /** A release batch in general: each mention takes one unit, never below 0. */
  lemma {:induction false} ReleasedIs(counters: map<UserId, int>, users: seq<UserId>, u: UserId)
    ensures
      var n, m := At(counters, u), multiset(users)[u];
      At(Released(counters, users), u) == if m == 0 then n else if n < m then 0 else n - m
    decreases |users|
  {
    if users != [] {
      var left := At(counters, users[0]) - 1;
      var next := counters[users[0] := if left < 0 then 0 else left];
      assert users == [users[0]] + users[1..];
      assert multiset(users)[u] == multiset([users[0]])[u] + multiset(users[1..])[u];
      ReleasedIs(next, users[1..], u);
    }
  }

  /** Both batches, for every user. */
  lemma AllCounted(counters: map<UserId, int>, users: seq<UserId>)
    ensures forall u :: At(Incremented(counters, users), u) == At(counters, u) + multiset(users)[u]
  {
    forall u ensures At(Incremented(counters, users), u) == At(counters, u) + multiset(users)[u] {
      IncrementedAt(counters, users, u);
    }
  }

  lemma AllReleased(counters: map<UserId, int>, users: seq<UserId>)
    ensures forall u ::
      var n, m := At(counters, u), multiset(users)[u];
      At(Released(counters, users), u) == if m == 0 then n else if n < m then 0 else n - m
  {
    forall u
      ensures
        var n, m := At(counters, u), multiset(users)[u];
        At(Released(counters, users), u) == if m == 0 then n else if n < m then 0 else n - m
    {
      ReleasedIs(counters, users, u);
    }
  }
}
