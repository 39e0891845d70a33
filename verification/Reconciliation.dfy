/** ExternalOrderApi: checking the unused codes of an order against the controller, an oracle here. */
module Reconciliation {
  import opened Records

  /** What the exchange-time request brings back. */
  datatype Check =
    | NoAnswer
    | ServerError                                                        // 5xx
    | BadRequest                                                         // 400
    | OtherStatus
    | Answer(redeemed: bool, exchangeId: string, amount: Option<int>)    // 200

  /** What asking for another code brings back; without a response the code raises. */
  datatype Swap = NoResponse | Refused | NewCode(code: string)

  /** `player` and the exchange id of an answer are texts; `str` makes "None" of an absent one. */
  datatype Oracle = Oracle(player: string, check: string -> Check, swap: string -> Swap)

  /** Keep the code, move it to the redeemed ones, or to the broken ones and record a new code's amount. */
  datatype Verdict = Keep | Redeem | Break(recorded: int)

  /** The branches of `_check_unused_code` and `_handle_check_code_response`. */
  function Judge(oracle: Oracle, code: string, amount: int): Verdict {
    match oracle.check(code)
    case NoAnswer => Keep
    case ServerError => Keep
    case OtherStatus => Keep
    case BadRequest => Redeem
    case Answer(redeemed, exchangeId, found) =>
      if redeemed then
        if oracle.player == "" || exchangeId == "" then Keep
        else if exchangeId == oracle.player then Redeem
        else Break(amount)
      else if found.Some? && found.value != 0 && amount != found.value then Break(found.value)
      else Keep
  }

  /** Which answers redeem a code, which break it, and under what amount a broken one is replaced. */
  lemma JudgeMeans(oracle: Oracle, code: string, amount: int)
    ensures
      var answer := oracle.check(code);
      Judge(oracle, code, amount).Redeem? <==>
        || answer == BadRequest
        || (answer.Answer? && answer.redeemed && oracle.player != "" && answer.exchangeId == oracle.player)
    ensures
      var answer := oracle.check(code);
      Judge(oracle, code, amount).Break? <==>
        || (answer.Answer? && answer.redeemed
            && oracle.player != "" && answer.exchangeId != "" && answer.exchangeId != oracle.player)
        || (answer.Answer? && !answer.redeemed
            && answer.amount.Some? && answer.amount.value != 0 && answer.amount.value != amount)
    ensures Judge(oracle, code, amount).Break? ==>
      Judge(oracle, code, amount).recorded
      == if oracle.check(code).redeemed then amount else oracle.check(code).amount.value
  {
  }

  /** If neither the order nor the answer names a player, a redeemed code counts as redeemed by the player. */
  lemma AbsentPlayersMatch(oracle: Oracle, code: string, amount: int)
    requires oracle.player == "None" && oracle.check(code).Answer?
    requires oracle.check(code).redeemed && oracle.check(code).exchangeId == "None"
    ensures Judge(oracle, code, amount) == Redeem
  {
  }

  ghost predicate Listing(codes: seq<string>, unused: map<string, int>) {
    && (forall i, j :: 0 <= i < j < |codes| ==> codes[i] != codes[j])
    && (forall c :: c in codes <==> c in unused)
  }

  // ---- what the loop accumulates ------------------------------------------------------------

  predicate InAll(codes: seq<string>, unused: map<string, int>) {
    forall i :: 0 <= i < |codes| ==> codes[i] in unused
  }

  function Redeemed(oracle: Oracle, unused: map<string, int>, codes: seq<string>): seq<string>
    requires InAll(codes, unused)
  {
    if codes == [] then []
    else
      var last := codes[|codes| - 1];
      Redeemed(oracle, unused, codes[..|codes| - 1]) + if Judge(oracle, last, unused[last]).Redeem? then [last] else []
  }

  function Broken(oracle: Oracle, unused: map<string, int>, codes: seq<string>): seq<string>
    requires InAll(codes, unused)
  {
    if codes == [] then []
    else
      var last := codes[|codes| - 1];
      Broken(oracle, unused, codes[..|codes| - 1]) + if Judge(oracle, last, unused[last]).Break? then [last] else []
  }

  /** The replacements, each with the amount it is recorded under. */
  function Added(oracle: Oracle, unused: map<string, int>, codes: seq<string>): map<string, int>
    requires InAll(codes, unused)
  {
    if codes == [] then map[]
    else
      var last := codes[|codes| - 1];
      var before := Added(oracle, unused, codes[..|codes| - 1]);
      var verdict := Judge(oracle, last, unused[last]);
      if verdict.Break? && oracle.swap(last).NewCode? then before[oracle.swap(last).code := verdict.recorded]
      else before
  }

  /** The code raises at this code. */
  predicate RaisesAt(oracle: Oracle, unused: map<string, int>, code: string)
    requires code in unused
  {
    Judge(oracle, code, unused[code]).Break? && oracle.swap(code).NoResponse?
  }

  lemma OneMore(oracle: Oracle, unused: map<string, int>, codes: seq<string>, code: string)
    requires InAll(codes, unused) && code in unused
    ensures
      var verdict, more := Judge(oracle, code, unused[code]), codes + [code];
      && InAll(more, unused)
      && Redeemed(oracle, unused, more) == Redeemed(oracle, unused, codes) + (if verdict.Redeem? then [code] else [])
      && Broken(oracle, unused, more) == Broken(oracle, unused, codes) + (if verdict.Break? then [code] else [])
      && Added(oracle, unused, more) ==
         if verdict.Break? && oracle.swap(code).NewCode?
         then Added(oracle, unused, codes)[oracle.swap(code).code := verdict.recorded]
         else Added(oracle, unused, codes)
  {
    assert (codes + [code])[..|codes|] == codes;
  }

  lemma {:induction false} RedeemedMembers(oracle: Oracle, unused: map<string, int>, codes: seq<string>, c: string)
    requires InAll(codes, unused)
    ensures c in Redeemed(oracle, unused, codes) <==> c in codes && Judge(oracle, c, unused[c]).Redeem?
  {
    if codes != [] {
      var rest := codes[..|codes| - 1];
      assert codes == rest + [codes[|codes| - 1]];
      RedeemedMembers(oracle, unused, rest, c);
    }
  }

  lemma {:induction false} BrokenMembers(oracle: Oracle, unused: map<string, int>, codes: seq<string>, c: string)
    requires InAll(codes, unused)
    ensures c in Broken(oracle, unused, codes) <==> c in codes && Judge(oracle, c, unused[c]).Break?
  {
    if codes != [] {
      var rest := codes[..|codes| - 1];
      assert codes == rest + [codes[|codes| - 1]];
      BrokenMembers(oracle, unused, rest, c);
    }
  }

  ghost predicate Once(codes: seq<string>) {
    forall i, j :: 0 <= i < j < |codes| ==> codes[i] != codes[j]
  }

  lemma {:induction false} EachOnce(oracle: Oracle, unused: map<string, int>, codes: seq<string>)
    requires InAll(codes, unused) && Once(codes)
    ensures Once(Redeemed(oracle, unused, codes)) && Once(Broken(oracle, unused, codes))
  {
    if codes != [] {
      var rest, last := codes[..|codes| - 1], codes[|codes| - 1];
      EachOnce(oracle, unused, rest);
      RedeemedMembers(oracle, unused, rest, last);
      BrokenMembers(oracle, unused, rest, last);
    }
  }

  /** Every replacement stands for a code that broke, under the amount judged for it. */
  lemma {:induction false} AddedReplaceBroken(oracle: Oracle, unused: map<string, int>, codes: seq<string>, n: string)
    requires InAll(codes, unused) && n in Added(oracle, unused, codes)
    ensures exists c ::
      && c in Broken(oracle, unused, codes) && c in unused && oracle.swap(c) == NewCode(n)
      && Judge(oracle, c, unused[c]) == Break(Added(oracle, unused, codes)[n])
  {
    var rest, last := codes[..|codes| - 1], codes[|codes| - 1];
    var broken := Broken(oracle, unused, codes);
    if Judge(oracle, last, unused[last]).Break? && oracle.swap(last) == NewCode(n) {
      assert broken[|broken| - 1] == last;
      assert last in broken;
    } else {
      AddedReplaceBroken(oracle, unused, rest, n);
      var c :|
        && c in Broken(oracle, unused, rest) && c in unused && oracle.swap(c) == NewCode(n)
        && Judge(oracle, c, unused[c]) == Break(Added(oracle, unused, rest)[n]);
      assert c in broken;
    }
  }

  /** Replacements never outnumber the new broken codes, fresh or not. */
  lemma {:induction false} NoMoreAddedThanBroken(oracle: Oracle, unused: map<string, int>, codes: seq<string>)
    requires InAll(codes, unused)
    ensures |Added(oracle, unused, codes)| <= |Broken(oracle, unused, codes)|
  {
    if codes != [] {
      var rest, last := codes[..|codes| - 1], codes[|codes| - 1];
      NoMoreAddedThanBroken(oracle, unused, rest);
      if Judge(oracle, last, unused[last]).Break? && oracle.swap(last).NewCode? {
        var before, n := Added(oracle, unused, rest), oracle.swap(last).code;
        assert before[n := Judge(oracle, last, unused[last]).recorded].Keys == before.Keys + {n};
      }
    }
  }

  // ---- the partition ---------------------------------------------------------------------------

  /** The unused codes after a loop that ran to its end. */
  function UnusedAfter(oracle: Oracle, unused: map<string, int>, codes: seq<string>): map<string, int>
    requires InAll(codes, unused)
  {
    (unused - (set c | c in Redeemed(oracle, unused, codes) + Broken(oracle, unused, codes)))
    + Added(oracle, unused, codes)
  }

  /** An original code ends in exactly one place: still unused with its amount, redeemed or broken. */
  ghost predicate InOnePlace(oracle: Oracle, unused: map<string, int>, codes: seq<string>, c: string)
    requires InAll(codes, unused) && c in unused
  {
    var after := UnusedAfter(oracle, unused, codes);
    var redeemed, broken := Redeemed(oracle, unused, codes), Broken(oracle, unused, codes);
    || (c in after && after[c] == unused[c] && c !in redeemed && c !in broken)
    || (c !in after && c in redeemed && c !in broken)
    || (c !in after && c !in redeemed && c in broken)
  }

  /** The controller did not hand out as new a code the order already had, unless it was kept as it is. */
  ghost predicate HarmlessReplacements(oracle: Oracle, unused: map<string, int>, codes: seq<string>)
    requires InAll(codes, unused)
  {
    var added := Added(oracle, unused, codes);
    forall n :: n in added && n in unused ==> Judge(oracle, n, unused[n]).Keep? && added[n] == unused[n]
  }

  /** Every original code ends in exactly one place exactly when the replacements are harmless. */
  lemma PartitionIffHarmless(oracle: Oracle, unused: map<string, int>, codes: seq<string>)
    requires Listing(codes, unused) && InAll(codes, unused)
    ensures (forall c :: c in unused ==> InOnePlace(oracle, unused, codes, c))
      <==> HarmlessReplacements(oracle, unused, codes)
  {
    var added := Added(oracle, unused, codes);
    forall c | c in unused
      ensures InOnePlace(oracle, unused, codes, c) <==>
        (c in added ==> Judge(oracle, c, unused[c]).Keep? && added[c] == unused[c])
    {
      RedeemedMembers(oracle, unused, codes, c);
      BrokenMembers(oracle, unused, codes, c);
    }
  }

  /** Replacement codes that are new to the order always give a partition. */
  lemma FreshReplacementsPartition(oracle: Oracle, unused: map<string, int>, codes: seq<string>)
    requires Listing(codes, unused) && InAll(codes, unused)
    requires forall c :: c in unused && oracle.swap(c).NewCode? ==> oracle.swap(c).code !in unused
    ensures forall c :: c in unused ==> InOnePlace(oracle, unused, codes, c)
  {
    forall n | n in Added(oracle, unused, codes) ensures n !in unused {
      AddedReplaceBroken(oracle, unused, codes, n);
    }
    PartitionIffHarmless(oracle, unused, codes);
  }

  // ---- the whole call, raised or not ------------------------------------------------------------

  predicate Raises(oracle: Oracle, unused: map<string, int>, codes: seq<string>)
    requires InAll(codes, unused)
  {
    exists i :: 0 <= i < |codes| && RaisesAt(oracle, unused, codes[i])
  }

  /** The codes the loop gets to: all of them, or up to the one it raises at. */
  function Checked(oracle: Oracle, unused: map<string, int>, codes: seq<string>): (checked: seq<string>)
    requires InAll(codes, unused)
    ensures checked <= codes && InAll(checked, unused)
  {
    if codes == [] then []
    else if RaisesAt(oracle, unused, codes[0]) then [codes[0]]
    else [codes[0]] + Checked(oracle, unused, codes[1..])
  }

  lemma {:induction false} CheckedUpTo(oracle: Oracle, unused: map<string, int>, codes: seq<string>, i: nat)
    requires InAll(codes, unused) && i <= |codes|
    requires forall j :: 0 <= j < i ==> !RaisesAt(oracle, unused, codes[j])
    ensures i == |codes| ==> Checked(oracle, unused, codes) == codes
    ensures i < |codes| && RaisesAt(oracle, unused, codes[i]) ==> Checked(oracle, unused, codes) == codes[..i + 1]
  {
    if i > 0 {
      assert forall j :: 0 <= j < i - 1 ==> codes[1..][j] == codes[j + 1];
      CheckedUpTo(oracle, unused, codes[1..], i - 1);
    }
  }

  /** The unused codes the call leaves: a raise loses the removals and additions put off to the end. */
  function FinalUnused(oracle: Oracle, unused: map<string, int>, codes: seq<string>): map<string, int>
    requires InAll(codes, unused)
  {
    if Raises(oracle, unused, codes) then unused else UnusedAfter(oracle, unused, codes)
  }

  /** After the call the code is in exactly one place: still unused with its amount, redeemed or broken. */
  ghost predicate EndsInOnePlace(oracle: Oracle, unused: map<string, int>, codes: seq<string>, c: string)
    requires InAll(codes, unused) && c in unused
  {
    var after, checked := FinalUnused(oracle, unused, codes), Checked(oracle, unused, codes);
    var redeemed, broken := Redeemed(oracle, unused, checked), Broken(oracle, unused, checked);
    || (c in after && after[c] == unused[c] && c !in redeemed && c !in broken)
    || (c !in after && c in redeemed && c !in broken)
    || (c !in after && c !in redeemed && c in broken)
  }

  /** When the call raises, exactly the codes it had judged by then are in two places. */
  lemma TwoPlacesIff(oracle: Oracle, unused: map<string, int>, codes: seq<string>, c: string)
    requires InAll(codes, unused) && c in unused && Raises(oracle, unused, codes)
    ensures !EndsInOnePlace(oracle, unused, codes, c) <==>
      c in Checked(oracle, unused, codes) && !Judge(oracle, c, unused[c]).Keep?
  {
    RedeemedMembers(oracle, unused, Checked(oracle, unused, codes), c);
    BrokenMembers(oracle, unused, Checked(oracle, unused, codes), c);
  }

  lemma {:induction false} RaisedIsChecked(oracle: Oracle, unused: map<string, int>, codes: seq<string>)
    requires InAll(codes, unused) && Raises(oracle, unused, codes)
    ensures exists c :: c in Checked(oracle, unused, codes) && c in unused && RaisesAt(oracle, unused, c)
  {
    if RaisesAt(oracle, unused, codes[0]) {
      assert codes[0] in Checked(oracle, unused, codes);
    } else {
      var i :| 0 <= i < |codes| && RaisesAt(oracle, unused, codes[i]);
      assert codes[1..][i - 1] == codes[i];
      RaisedIsChecked(oracle, unused, codes[1..]);
      var c :| c in Checked(oracle, unused, codes[1..]) && c in unused && RaisesAt(oracle, unused, c);
      assert c in Checked(oracle, unused, codes);
    }
  }

  /** The call is a partition exactly when no replacement request went unanswered and no replacement does harm. */
  lemma CallPartitionIff(oracle: Oracle, unused: map<string, int>, codes: seq<string>)
    requires Listing(codes, unused) && InAll(codes, unused)
    ensures (forall c :: c in unused ==> EndsInOnePlace(oracle, unused, codes, c))
      <==> !Raises(oracle, unused, codes) && HarmlessReplacements(oracle, unused, codes)
  {
    if Raises(oracle, unused, codes) {
      RaisedIsChecked(oracle, unused, codes);
      var c :| c in Checked(oracle, unused, codes) && c in unused && RaisesAt(oracle, unused, c);
      TwoPlacesIff(oracle, unused, codes, c);
    } else {
      CheckedUpTo(oracle, unused, codes, |codes|);
      PartitionIffHarmless(oracle, unused, codes);
      forall c | c in unused
        ensures EndsInOnePlace(oracle, unused, codes, c) <==> InOnePlace(oracle, unused, codes, c)
      {
      }
    }
  }

  /** Whatever else is unused afterwards is a replacement for a newly broken code. */
  lemma OthersAreReplacements(oracle: Oracle, unused: map<string, int>, codes: seq<string>, n: string)
    requires Listing(codes, unused) && InAll(codes, unused)
    requires n in UnusedAfter(oracle, unused, codes) && n !in unused
    ensures exists c :: c in Broken(oracle, unused, codes) && oracle.swap(c) == NewCode(n)
  {
    AddedReplaceBroken(oracle, unused, codes, n);
  }

  /** Codes are replaced under the amount the order asked for, unless the old code had another amount. */
  lemma RecordedAmountIff(oracle: Oracle, code: string, amount: int)
    requires Judge(oracle, code, amount).Break?
    ensures Judge(oracle, code, amount).recorded == amount <==> oracle.check(code).redeemed
  {
  }

  /**
   * So in the unused codes left after a full loop, a replacement carries the amount of the code it
   * stands for exactly when that code was redeemed by somebody else.
   */
  lemma ReplacementAmountIff(oracle: Oracle, unused: map<string, int>, codes: seq<string>, n: string)
    requires InAll(codes, unused) && n in Added(oracle, unused, codes)
    ensures n in UnusedAfter(oracle, unused, codes)
    ensures exists c ::
      && c in Broken(oracle, unused, codes) && c in unused && oracle.swap(c) == NewCode(n) && oracle.check(c).Answer?
      && (UnusedAfter(oracle, unused, codes)[n] == unused[c] <==> oracle.check(c).redeemed)
  {
    AddedReplaceBroken(oracle, unused, codes, n);
    var c :|
      && c in Broken(oracle, unused, codes) && c in unused && oracle.swap(c) == NewCode(n)
      && Judge(oracle, c, unused[c]) == Break(Added(oracle, unused, codes)[n]);
    RecordedAmountIff(oracle, c, unused[c]);
  }

  /** Who is in the lists the loop adds, in terms of the answers. */
  lemma ListsMean(oracle: Oracle, unused: map<string, int>, codes: seq<string>)
    requires InAll(codes, unused)
    ensures forall c :: c in Redeemed(oracle, unused, codes) <==>
      var answer := oracle.check(c);
      c in codes
      && (|| answer == BadRequest
          || (answer.Answer? && answer.redeemed && oracle.player != "" && answer.exchangeId == oracle.player))
    ensures forall c :: c in Broken(oracle, unused, codes) <==>
      var answer := oracle.check(c);
      c in codes && c in unused
      && (|| (answer.Answer? && answer.redeemed
              && oracle.player != "" && answer.exchangeId != "" && answer.exchangeId != oracle.player)
          || (answer.Answer? && !answer.redeemed
              && answer.amount.Some? && answer.amount.value != 0 && answer.amount.value != unused[c]))
  {
    forall c ensures c in codes ==> c in unused {
    }
    forall c
      ensures c in Redeemed(oracle, unused, codes) <==> c in codes && c in unused && Judge(oracle, c, unused[c]).Redeem?
      ensures c in Broken(oracle, unused, codes) <==> c in codes && c in unused && Judge(oracle, c, unused[c]).Break?
      ensures c in unused ==>
        var answer := oracle.check(c);
        Judge(oracle, c, unused[c]).Redeem? <==>
          || answer == BadRequest
          || (answer.Answer? && answer.redeemed && oracle.player != "" && answer.exchangeId == oracle.player)
      ensures c in unused ==>
        var answer := oracle.check(c);
        Judge(oracle, c, unused[c]).Break? <==>
          || (answer.Answer? && answer.redeemed
              && oracle.player != "" && answer.exchangeId != "" && answer.exchangeId != oracle.player)
          || (answer.Answer? && !answer.redeemed
              && answer.amount.Some? && answer.amount.value != 0 && answer.amount.value != unused[c])
    {
      RedeemedMembers(oracle, unused, codes, c);
      BrokenMembers(oracle, unused, codes, c);
      if c in unused {
        JudgeMeans(oracle, c, unused[c]);
      }
    }
  }

  lemma {:induction false} AddedFor(oracle: Oracle, unused: map<string, int>, codes: seq<string>, b: string)
    requires InAll(codes, unused) && b in Broken(oracle, unused, codes) && oracle.swap(b).NewCode?
    ensures oracle.swap(b).code in Added(oracle, unused, codes)
  {
    var rest, last := codes[..|codes| - 1], codes[|codes| - 1];
    if b in Broken(oracle, unused, rest) {
      AddedFor(oracle, unused, rest, b);
    }
  }

  /** What a full loop leaves unused. */
  lemma LeftMeans(oracle: Oracle, unused: map<string, int>, codes: seq<string>)
    requires Listing(codes, unused) && InAll(codes, unused)
    ensures forall c :: c in UnusedAfter(oracle, unused, codes) <==>
      || (c in unused && c !in Redeemed(oracle, unused, codes) && c !in Broken(oracle, unused, codes))
      || exists b :: b in Broken(oracle, unused, codes) && oracle.swap(b) == NewCode(c)
    ensures forall c :: c in UnusedAfter(oracle, unused, codes) ==>
      || (exists b :: b in Broken(oracle, unused, codes) && oracle.swap(b) == NewCode(c))
      || (c in unused && UnusedAfter(oracle, unused, codes)[c] == unused[c])
  {
    forall c ensures c in Added(oracle, unused, codes) <==>
      exists b :: b in Broken(oracle, unused, codes) && oracle.swap(b) == NewCode(c)
    {
      if c in Added(oracle, unused, codes) {
        AddedReplaceBroken(oracle, unused, codes, c);
      }
      if b :| b in Broken(oracle, unused, codes) && oracle.swap(b) == NewCode(c) {
        AddedFor(oracle, unused, codes, b);
      }
    }
  }

  // ---- check_order_finished --------------------------------------------------------------------

  /** What the exchange-time request says about a code a taker claims to have used. */
  datatype Activation = Unverified | NotActivated | ActivatedFor(openId: string)

  /** The answer for this code ends the review. */
  predicate Decides(activation: Activation, player: string) {
    activation.NotActivated? || (activation.ActivatedFor? && activation.openId != player)
  }

  function UnverifiedOf(codes: seq<string>, activation: string -> Activation): seq<string> {
    if codes == [] then []
    else UnverifiedOf(codes[..|codes| - 1], activation)
         + if activation(codes[|codes| - 1]).Unverified? then [codes[|codes| - 1]] else []
  }

  /** `check_order_finished`: the first deciding answer settles it, fraud when it names another player. */
  method CheckOrderFinished(withCodes: bool, player: string, codes: seq<string>, activation: string -> Activation)
    returns (finished: bool, fraud: bool, unverified: seq<string>)
    ensures finished <==> !withCodes || forall i :: 0 <= i < |codes| ==> !Decides(activation(codes[i]), player)
    ensures finished ==> !fraud && unverified == if withCodes then UnverifiedOf(codes, activation) else []
    ensures finished <==>
      !withCodes || forall i :: 0 <= i < |codes| ==>
        activation(codes[i]) == Unverified || activation(codes[i]) == ActivatedFor(player)
    ensures fraud ==> exists k ::
      0 <= k < |codes| && activation(codes[k]).ActivatedFor? && activation(codes[k]).openId != player
    ensures forall c :: c in unverified ==> c in codes && activation(c) == Unverified
    ensures finished && withCodes ==> forall c :: c in codes && activation(c) == Unverified ==> c in unverified
    ensures !finished ==> exists k ::
      && 0 <= k < |codes| && Decides(activation(codes[k]), player)
      && (forall j :: 0 <= j < k ==> !Decides(activation(codes[j]), player))
      && fraud == activation(codes[k]).ActivatedFor? && unverified == UnverifiedOf(codes[..k], activation)
  {
    if !withCodes {
      return true, false, [];
    }
    unverified := [];
    for i := 0 to |codes|
      invariant unverified == UnverifiedOf(codes[..i], activation)
      invariant forall c :: c in unverified <==> c in codes[..i] && activation(c) == Unverified
      invariant forall j :: 0 <= j < i ==> !Decides(activation(codes[j]), player)
    {
      assert codes[..i + 1][..i] == codes[..i];
      assert codes[..i + 1] == codes[..i] + [codes[i]];
      match activation(codes[i]) {
        case Unverified => unverified := unverified + [codes[i]];
        case NotActivated => return false, false, unverified;
        case ActivatedFor(openId) =>
          if openId != player {
            return false, true, unverified;
          }
      }
    }
    assert codes[..|codes|] == codes;
    return true, false, unverified;
  }

  // ---- the loop on the order itself ----------------------------------------------------------

  class ExternalOrder {
    var unused: map<string, int>
    var redeemed: seq<string>
    var broken: seq<string>

    constructor (unused: map<string, int>, redeemed: seq<string>, broken: seq<string>)
      ensures this.unused == unused && this.redeemed == redeemed && this.broken == broken
    {
      this.unused, this.redeemed, this.broken := unused, redeemed, broken;
    }
  }

  class ExternalOrderApi {
    const oracle: Oracle
    var codesToAdd: map<string, int>
    var codesToRemove: seq<string>

    constructor (oracle: Oracle)
      ensures this.oracle == oracle
    {
      this.oracle, codesToAdd, codesToRemove := oracle, map[], [];
    }

    /** `_check_unused_code`; true when it raises. */
    method CheckUnusedCode(order: ExternalOrder, code: string, amount: int) returns (raised: bool)
      modifies this, order`redeemed, order`broken
      ensures
        var verdict := Judge(oracle, code, amount);
        && raised == (verdict.Break? && oracle.swap(code).NoResponse?)
        && order.redeemed == old(order.redeemed) + (if verdict.Redeem? then [code] else [])
        && order.broken == old(order.broken) + (if verdict.Break? then [code] else [])
        && codesToRemove == old(codesToRemove) + (if verdict.Keep? then [] else [code])
        && codesToAdd ==
           (if verdict.Break? && oracle.swap(code).NewCode?
            then old(codesToAdd)[oracle.swap(code).code := verdict.recorded]
            else old(codesToAdd))
      ensures
        var answer := oracle.check(code);
        var mine := answer == BadRequest
          || (answer.Answer? && answer.redeemed && oracle.player != "" && answer.exchangeId == oracle.player);
        var spoilt :=
          || (answer.Answer? && answer.redeemed
              && oracle.player != "" && answer.exchangeId != "" && answer.exchangeId != oracle.player)
          || (answer.Answer? && !answer.redeemed
              && answer.amount.Some? && answer.amount.value != 0 && answer.amount.value != amount);
        && raised == (spoilt && oracle.swap(code) == NoResponse)
        && order.redeemed == old(order.redeemed) + (if mine then [code] else [])
        && order.broken == old(order.broken) + (if spoilt then [code] else [])
        && codesToRemove == old(codesToRemove) + (if mine || spoilt then [code] else [])
        && codesToAdd ==
           (if spoilt && oracle.swap(code).NewCode?
            then old(codesToAdd)[oracle.swap(code).code := if answer.redeemed then amount else answer.amount.value]
            else old(codesToAdd))
    {
      JudgeMeans(oracle, code, amount);
      raised := false;
      var response := oracle.check(code);
      if response.BadRequest? {
        order.redeemed := order.redeemed + [code];
        codesToRemove := codesToRemove + [code];
      } else if response.Answer? {
        raised := HandleCheckCodeResponse(order, code, amount, response);
      }
    }

    /** `_handle_check_code_response`. */
    method HandleCheckCodeResponse(order: ExternalOrder, code: string, amount: int, response: Check)
      returns (raised: bool)
      requires response == oracle.check(code) && response.Answer?
      modifies this, order`redeemed, order`broken
      ensures
        var verdict := Judge(oracle, code, amount);
        && raised == (verdict.Break? && oracle.swap(code).NoResponse?)
        && order.redeemed == old(order.redeemed) + (if verdict.Redeem? then [code] else [])
        && order.broken == old(order.broken) + (if verdict.Break? then [code] else [])
        && codesToRemove == old(codesToRemove) + (if verdict.Keep? then [] else [code])
        && codesToAdd ==
           (if verdict.Break? && oracle.swap(code).NewCode?
            then old(codesToAdd)[oracle.swap(code).code := verdict.recorded]
            else old(codesToAdd))
      // the same in terms of the answer
      ensures
        var own := response.redeemed && oracle.player != "" && response.exchangeId == oracle.player;
        var foreign := response.redeemed && oracle.player != "" && response.exchangeId != ""
                       && response.exchangeId != oracle.player;
        var changed := !response.redeemed && response.amount.Some? && response.amount.value != 0
                       && response.amount.value != amount;
        && order.redeemed == old(order.redeemed) + (if own then [code] else [])
        && order.broken == old(order.broken) + (if foreign || changed then [code] else [])
        && codesToRemove == old(codesToRemove) + (if own || foreign || changed then [code] else [])
        && raised == ((foreign || changed) && oracle.swap(code).NoResponse?)
        && codesToAdd ==
           (if (foreign || changed) && oracle.swap(code).NewCode?
            then old(codesToAdd)[oracle.swap(code).code := if foreign then amount else response.amount.value]
            else old(codesToAdd))
    {
      raised := false;
      var recorded := amount;
      if response.redeemed {
        if oracle.player == "" || response.exchangeId == "" {
          return;
        }
        if response.exchangeId == oracle.player {
          order.redeemed := order.redeemed + [code];
          codesToRemove := codesToRemove + [code];
          return;
        }
      } else {
        if response.amount.None? || response.amount.value == 0 || response.amount.value == amount {
          return;
        }
        recorded := response.amount.value;
      }
      order.broken := order.broken + [code];
      codesToRemove := codesToRemove + [code];
      match oracle.swap(code) {
        case NoResponse => raised := true;
        case Refused =>
        case NewCode(n) => codesToAdd := codesToAdd[n := recorded];
      }
    }

    /** Where the loop stands after the codes `checked`, having started from the given lists. */
    ghost predicate Progress(order: ExternalOrder, checked: seq<string>, redeemed: seq<string>, broken: seq<string>)
      reads this, order
    {
      && InAll(checked, order.unused) && Deferred(checked, order.unused)
      && order.redeemed == redeemed + Redeemed(oracle, order.unused, checked)
      && order.broken == broken + Broken(oracle, order.unused, checked)
    }

    /** One turn of the loop. */
    method CheckNext(
        order: ExternalOrder, code: string, ghost checked: seq<string>, ghost redeemed: seq<string>,
        ghost broken: seq<string>)
      returns (raised: bool)
      requires Progress(order, checked, redeemed, broken) && code in order.unused
      modifies this, order`redeemed, order`broken
      ensures Progress(order, checked + [code], redeemed, broken) && raised == RaisesAt(oracle, order.unused, code)
    {
      OneMore(oracle, order.unused, checked, code);
      raised := CheckUnusedCode(order, code, order.unused[code]);
    }

    /** The loop of `check_unused_codes`; the index of the code it raised at, if any. */
    method CheckAll(order: ExternalOrder, codes: seq<string>) returns (raisedAt: Option<nat>, checked: seq<string>)
      requires InAll(codes, order.unused)
      modifies this, order`redeemed, order`broken
      ensures checked == if raisedAt.Some? && raisedAt.value < |codes| then codes[..raisedAt.value + 1] else codes
      ensures Progress(order, checked, old(order.redeemed), old(order.broken))
      ensures raisedAt.None? ==> forall i :: 0 <= i < |codes| ==> !RaisesAt(oracle, order.unused, codes[i])
      ensures raisedAt.Some? ==>
        && raisedAt.value < |codes| && RaisesAt(oracle, order.unused, codes[raisedAt.value])
        && forall i :: 0 <= i < raisedAt.value ==> !RaisesAt(oracle, order.unused, codes[i])
    {
      codesToAdd, codesToRemove, checked := map[], [], [];
      for i := 0 to |codes|
        invariant checked == codes[..i] && Progress(order, checked, old(order.redeemed), old(order.broken))
        invariant forall j :: 0 <= j < i ==> !RaisesAt(oracle, order.unused, codes[j])
      {
        var raised := CheckNext(order, codes[i], checked, old(order.redeemed), old(order.broken));
        checked := checked + [codes[i]];
        if raised {
          return Some(i), checked;
        }
      }
      return None, checked;
    }

    /** The call in terms of the verdicts; it raises at the last code it got to. */
    method CheckAndUpdate(order: ExternalOrder, codes: seq<string>) returns (raised: bool, checked: seq<string>)
      requires Listing(codes, order.unused) && InAll(codes, order.unused)
      modifies this, order
      ensures raised == Raises(oracle, old(order.unused), codes) && checked == Checked(oracle, old(order.unused), codes)
      ensures raised ==> checked != [] && oracle.swap(checked[|checked| - 1]) == NoResponse
      ensures
        && order.redeemed == old(order.redeemed) + Redeemed(oracle, old(order.unused), checked)
        && order.broken == old(order.broken) + Broken(oracle, old(order.unused), checked)
      ensures order.unused == FinalUnused(oracle, old(order.unused), codes)
    {
      var raisedAt: Option<nat>;
      raisedAt, checked := CheckAll(order, codes);
      CheckedUpTo(oracle, order.unused, codes, if raisedAt.Some? then raisedAt.value else |codes|);
      raised := raisedAt.Some?;
      if !raised {
        RemoveAndAdd(order, codes);
      }
    }

    /**
     * `check_unused_codes`; `codes` is the iteration order of the dict. When a replacement request gets no
     * response it raises, and the deferred removals and additions are lost. `n` is how many codes it got to.
     */
    method CheckUnusedCodes(order: ExternalOrder, codes: seq<string>)
      returns (raised: bool, ghost n: nat)
      requires Listing(codes, order.unused) && InAll(codes, order.unused)
      modifies this, order
      ensures raised == Raises(oracle, old(order.unused), codes)
      ensures
        var checked := Checked(oracle, old(order.unused), codes);
        && order.redeemed == old(order.redeemed) + Redeemed(oracle, old(order.unused), checked)
        && order.broken == old(order.broken) + Broken(oracle, old(order.unused), checked)
      ensures order.unused == FinalUnused(oracle, old(order.unused), codes)
      // the same in terms of the answers
      ensures n <= |codes| && (!raised ==> n == |codes|)
      ensures raised ==> n > 0 && oracle.swap(codes[n - 1]) == NoResponse
      ensures |old(order.redeemed)| <= |order.redeemed| && |old(order.broken)| <= |order.broken|
      ensures forall c :: c in order.redeemed[|old(order.redeemed)|..] <==>
        var answer := oracle.check(c);
        c in codes[..n]
        && (|| answer == BadRequest
            || (answer.Answer? && answer.redeemed && oracle.player != "" && answer.exchangeId == oracle.player))
      ensures forall c :: c in order.broken[|old(order.broken)|..] <==>
        var answer := oracle.check(c);
        c in codes[..n]
        && (|| (answer.Answer? && answer.redeemed
                && oracle.player != "" && answer.exchangeId != "" && answer.exchangeId != oracle.player)
            || (answer.Answer? && !answer.redeemed
                && answer.amount.Some? && answer.amount.value != 0 && answer.amount.value != old(order.unused)[c]))
      ensures raised ==> order.unused == old(order.unused)
      ensures !raised ==> forall c :: c in order.unused <==>
        || (c in old(order.unused)
            && c !in order.redeemed[|old(order.redeemed)|..] && c !in order.broken[|old(order.broken)|..])
        || exists b :: b in order.broken[|old(order.broken)|..] && oracle.swap(b) == NewCode(c)
      ensures !raised ==> forall c :: c in order.unused ==>
        || (exists b :: b in order.broken[|old(order.broken)|..] && oracle.swap(b) == NewCode(c))
        || (c in old(order.unused) && order.unused[c] == old(order.unused)[c])
    {
      ghost var unused, redeemed, broken := order.unused, order.redeemed, order.broken;
      var checked: seq<string>;
      raised, checked := CheckAndUpdate(order, codes);
      n := |checked|;
      if !raised {
        CheckedUpTo(oracle, unused, codes, |codes|);
      }
      assert checked == codes[..n];
      assert order.redeemed[|redeemed|..] == Redeemed(oracle, unused, checked);
      assert order.broken[|broken|..] == Broken(oracle, unused, checked);
      ListsMean(oracle, unused, checked);
      if !raised {
        LeftMeans(oracle, unused, codes);
      }
    }

    /** What the loop has put aside after these codes. */
    ghost predicate Deferred(codes: seq<string>, unused: map<string, int>)
      requires InAll(codes, unused)
      reads this
    {
      && codesToAdd == Added(oracle, unused, codes)
      && forall c :: c in codesToRemove <==> c in codes && c in unused && !Judge(oracle, c, unused[c]).Keep?
    }

    /** The deferred removals and additions. */
    method RemoveAndAdd(order: ExternalOrder, ghost codes: seq<string>)
      requires Listing(codes, order.unused) && InAll(codes, order.unused)
      requires Deferred(codes, order.unused)
      modifies order`unused
      ensures order.unused == UnusedAfter(oracle, old(order.unused), codes)
    {
      ghost var unused := order.unused;
      for i := 0 to |codesToRemove|
        invariant order.unused == unused - (set c | c in codesToRemove[..i])
      {
        assert codesToRemove[..i + 1] == codesToRemove[..i] + [codesToRemove[i]];
        if codesToRemove[i] in order.unused {
          order.unused := order.unused - {codesToRemove[i]};
        }
      }
      assert codesToRemove[..|codesToRemove|] == codesToRemove;
      ghost var gone := set c | c in Redeemed(oracle, unused, codes) + Broken(oracle, unused, codes);
      forall c ensures c in codesToRemove <==> c in gone {
        RedeemedMembers(oracle, unused, codes, c);
        BrokenMembers(oracle, unused, codes, c);
      }
      assert (set c | c in codesToRemove) == gone;
      order.unused := order.unused + codesToAdd;
    }
  }
}
