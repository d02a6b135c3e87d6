/** What comes of sending a payout, when it is sent again, and when a saved
    account may be used (services/core/cmd/api/payouts.go). */
module PayoutRules {
  import opened Common
  import opened Policy
  import opened Ledger
  import opened Books
  import C = Cases
  import opened BooksInvariant
  import opened CaseRules
  import opened MoneySteps
  import opened Runs
  import Progress

  /** The tables with one payout row rewritten. */
  function WithPayout(s: Books, b: nat, p: C.Payout): Books
    requires b < |s.cases|
  {
    s.(cases := s.cases[b := s.cases[b].(payout := p)])
  }

  /** In every reachable state, sending a payout whose reference the provider
      does not know: nothing happens while the provider cannot be asked or takes
      nothing, an account that cannot be read or a rejection fails the payout,
      and an accepted transfer is on record at the provider, and in the payout's
      own row once its answer arrives. */
  lemma SentExactly(cfg: Config, s: Books, b: nat, lookup: bool, readable: bool, reply: Reply)
    requires Valid(cfg) && Reachable(cfg, s) && b < |s.cases| && s.cases[b].payout.state == C.Processing
    requires Ref(b, s.cases[b].payout.generation) !in s.transfers
    ensures var p := s.cases[b].payout;
      var ref := Ref(b, p.generation);
      var failed := WithPayout(s, b, p.(state := C.PayoutFailed, updatedAt := s.clock));
      var t := Send(s, b, lookup, readable, reply);
      if !lookup then t == s
      else if !readable then t == failed
      else match reply
        case NotAccepted => t == s
        case Rejected => t == failed
        case AcceptedSilently(u) => t == s.(transfers := s.transfers[ref := u])
        case AcceptedSeen(u) =>
          && t.transfers == s.transfers[ref := u]
          && match u.status
             case InFlight => t == s.(transfers := t.transfers)
             case Delivered =>
               var fee := if u.fee > 0 then u.fee else 0;
               if p.amount - p.recovery + fee <= MAX_INT64
               then t == WithPayout(s, b, p.(state := C.Paid, fees := p.fees + fee, updatedAt := s.clock)).(
                      transfers := t.transfers,
                      journals := s.journals + [Journal(PayoutSource(b, p.generation), PayoutLines(p, s.cases[b].seller, u.fee))])
               else t == s.(transfers := t.transfers)
             case _ => t == failed.(transfers := t.transfers)
  {
    hide Reachable, Agrees, RowsOk, Linked, Sound, Postable, PayoutLines;
    ReachableInv(cfg, s);
    var p := s.cases[b].payout;
    if reply.AcceptedSeen? {
      UsedSource(s, PayoutSource(b, p.generation));
      StillOwing(cfg, s, b);
      Progress.PayoutPostable(p, s.cases[b].seller, reply.t.fee);
      Progress.SomePayoutLines(p, s.cases[b].seller, reply.t.fee);
    }
  }

  lemma StillOwing(cfg: Config, s: Books, b: nat)
    requires Inv(cfg, s) && b < |s.cases| && s.cases[b].payout.state == C.Processing
    ensures s.cases[b].payout.amount > s.cases[b].payout.recovery
  {}

  /** A failed payout is sent again, under the next reference, only to an
      account that may be used: when an operator says so, when the seller has
      saved an account since, up to the twentieth reference, or 2, 12, 24 and 48
      hours after the first four failures. */
  lemma RetriedExactly(s: Books, b: nat, automatic: bool)
    requires b < |s.cases| && s.cases[b].payout.generation >= 1
    ensures var p := s.cases[b].payout;
      var seller := s.cases[b].seller;
      var waited := s.clock - p.updatedAt;
      var due :=
        || (seller in s.accounts && s.accounts[seller].updatedAt > p.updatedAt && p.generation < 20)
        || (p.generation == 1 && waited > 7_200) || (p.generation == 2 && waited > 43_200)
        || (p.generation == 3 && waited > 86_400) || (p.generation == 4 && waited > 172_800);
      RetryPayout(s, b, automatic) ==
        if p.state == C.PayoutFailed && seller in s.accounts && s.accounts[seller].usableFrom <= s.clock && (!automatic || due)
        then WithPayout(s, b, p.(state := C.Processing, generation := p.generation + 1, updatedAt := s.clock))
        else s
  {}

  /** A first account may be used at once and saving the same one again changes
      nothing about that; a different one waits a day. */
  lemma SavedExactly(s: Books, seller: int, different: bool)
    ensures var t := SaveAccount(s, seller, different);
      && t == s.(accounts := t.accounts)
      && t.accounts.Keys == s.accounts.Keys + {seller}
      && (forall x | x in s.accounts && x != seller :: t.accounts[x] == s.accounts[x])
      && t.accounts[seller].updatedAt == s.clock
      && t.accounts[seller].usableFrom ==
           if seller !in s.accounts then s.clock
           else if different then s.clock + 86_400 else s.accounts[seller].usableFrom
  {}

  /** A payout recorded as paid whose transfer came back, or never arrived,
      fails, and its net amount is owed to the seller again: the opposite
      journal is the whole of it. */
  lemma ReversedExactly(cfg: Config, s: Books, b: nat)
    requires Valid(cfg) && Reachable(cfg, s) && b < |s.cases| && s.cases[b].payout.state == C.Paid
    ensures var p := s.cases[b].payout;
      var seller := s.cases[b].seller;
      var ref := Ref(b, p.generation);
      var t := Reverse(s, b);
      if ref in s.transfers && (s.transfers[ref].status == Returned || s.transfers[ref].status == Refused)
      then
        && t == WithPayout(s, b, p.(state := C.PayoutFailed, updatedAt := s.clock)).(journals := t.journals)
        && Balance(t.journals, Receivable) == Balance(s.journals, Receivable) + (p.amount - p.recovery)
        && Balance(t.journals, Payable(seller)) == Balance(s.journals, Payable(seller)) - (p.amount - p.recovery)
      else t == s
  {
    hide Reachable, Agrees, Linked, ProviderOk, Sound, Postable, Balance;
    ReachableInv(cfg, s);
    var p := s.cases[b].payout;
    var net := p.amount - p.recovery;
    assert Ok(cfg, s.clock, s.cases[b]);
    UsedSource(s, ReversalSource(b, p.generation));
    if net > 0 {
      var lines := ReversalLines(s.cases[b].seller, net);
      TwoLinesPost(lines[0], lines[1], net);
      BalanceAfter(s.journals, ReversalSource(b, p.generation), lines, Receivable);
      BalanceAfter(s.journals, ReversalSource(b, p.generation), lines, Payable(s.cases[b].seller));
      EffectTwo(lines[0], lines[1], Receivable);
      EffectTwo(lines[0], lines[1], Payable(s.cases[b].seller));
    }
  }

  /** What happens outside: time only goes on, and an accepted transfer is
      delivered or refused once, and a delivered one may still come back. */
  lemma OutsideExactly(cfg: Config, s: Books, to: int, ref: Ref, u: Transfer)
    ensures Step(cfg, s, Tick(to)) == s.(clock := if to >= s.clock then to else s.clock)
    ensures Step(cfg, s, ProviderMoves(ref, u)) ==
      if ref in s.transfers
         && ((s.transfers[ref].status == InFlight && (u.status == Delivered || u.status == Refused))
             || (s.transfers[ref].status == Delivered && u == s.transfers[ref].(status := Returned)))
      then s.(transfers := s.transfers[ref := u]) else s
  {}
}
