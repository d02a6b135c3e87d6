/** What each answer does to an offer, and how a negotiation that ended without
    an agreement stays ended (services/core/cmd/api/offers.go). */
module OfferRules {
  import opened Common
  import opened Offers
  import opened World
  import opened WorldInvariant
  import B = Books
  import D = Diary
  import BI = BooksInvariant
  import P = Policy
  import WR = WorldRuns

  /** An offer is made for a duration on sale and an amount from 100 to
      100 000 000, and stays open for three days. */
  lemma MadeExactly(seller: int, buyer: int, duration: nat, amount: int, now: int)
    ensures var made := Create(seller, buyer, duration, amount, now);
      && (made.Some? <==> (duration == 15 || duration == 30 || duration == 60) && 100 <= amount <= 100_000_000)
      && (made.Some? ==>
            && made.value.seller == seller && made.value.buyer == buyer && made.value.duration == duration
            && made.value.state == Pending && made.value.versions == [Version(amount, Buyer)]
            && made.value.expires == now + 259_200 && made.value.checkout.None? && made.value.booking.None?)
  {}

  /** What becomes of an offer whose answer is refused. */
  function Refused(o: Offer, now: int): Offer {
    if o.state in {Pending, Countered} && o.expires <= now then o.(state := Lapsed) else o
  }

  /** Either side withdraws a counteroffer, and the buyer a first offer; the
      offer is then withdrawn and nothing else about it changes. */
  lemma WithdrawnExactly(o: Offer, role: Role, version: int, now: int)
    ensures var (p, taken) := Respond(o, role, version, Withdraw, now);
      && (taken <==>
            && now < o.expires && version == |o.versions|
            && (o.state == Countered || (o.state == Pending && role == Buyer)))
      && p == if taken then o.(state := Withdrawn) else Refused(o, now)
  {}

  /** The seller declines a first offer, the buyer a counteroffer. */
  lemma DeclinedExactly(o: Offer, role: Role, version: int, now: int)
    ensures var (p, taken) := Respond(o, role, version, Decline, now);
      && (taken <==>
            && now < o.expires && version == |o.versions|
            && ((o.state == Pending && role == Seller) || (o.state == Countered && role == Buyer)))
      && p == if taken then o.(state := Declined) else Refused(o, now)
  {}

  /** The seller accepts a first offer, the buyer a counteroffer; the buyer then
      has a day to pay. */
  lemma AgreedExactly(o: Offer, role: Role, version: int, now: int)
    ensures var (p, taken) := Respond(o, role, version, Accept, now);
      && (taken <==>
            && now < o.expires && version == |o.versions|
            && ((o.state == Pending && role == Seller) || (o.state == Countered && role == Buyer)))
      && p == if taken then o.(state := Agreed, checkout := Some(now + 86_400)) else Refused(o, now)
  {}

  /** Only the seller counters, once, within the supported amounts. */
  lemma CounteredExactly(o: Offer, role: Role, version: int, amount: int, now: int)
    ensures var (p, taken) := Respond(o, role, version, Counter(amount), now);
      && (taken <==>
            && now < o.expires && role == Seller && o.state == Pending
            && version == 1 && |o.versions| == 1 && 100 <= amount <= 100_000_000)
      && p == if taken then o.(state := Countered, versions := o.versions + [Version(amount, Seller)]) else Refused(o, now)
  {}

  /** Withdrawn, declined, or lapsed before anybody agreed. */
  predicate Ended(o: Offer) {
    o.state == Withdrawn || o.state == Declined || (o.state == Lapsed && o.checkout.None?)
  }

  /** No answer, look or payment moves an ended offer. */
  lemma EndedIsFinal(o: Offer, role: Role, version: int, action: Action, now: int)
    requires Ended(o)
    ensures Respond(o, role, version, action, now) == (o, false)
    ensures o.checkout.None? ==> Viewed(o, now) == o && Extended(o, now) == o
  {}

  /** No quote names an offer that ended without an agreement. */
  lemma EndedIsNotQuoted(w: World, id: nat)
    requires Links(w) && id < |w.offers| && Ended(w.offers[id])
    ensures w.offers[id].checkout.None? && w.offers[id].booking.None?
    ensures forall i | 0 <= i < |w.quotes| :: w.quotes[i].offer != Some(id)
  {
    hide Rests, Asks;
    assert Ok(w.offers[id]);
    forall i | 0 <= i < |w.quotes| ensures w.quotes[i].offer != Some(id) {
      assert Agrees(w, i);
    }
  }

  lemma PayLeavesEnded(cfg: P.Config, w: World, a: int, ch: B.Charge, valid: bool, available: bool, id: nat)
    requires Links(w) && id < |w.offers| && Ended(w.offers[id])
    ensures var v := PayStep(cfg, w, a, ch, valid, available); id < |v.offers| && v.offers[id] == w.offers[id]
  {
    hide B.Verify, First, Links, D.MayReclaim, D.Lapsed;
    EndedIsNotQuoted(w, id);
  }

  lemma QuoteLeavesEnded(w: World, offer: nat, starts: int, buffer: nat, id: nat)
    requires id < |w.offers| && Ended(w.offers[id]) && w.offers[id].checkout.None?
    ensures var v := OfferQuoteStep(w, offer, starts, buffer); id < |v.offers| && v.offers[id] == w.offers[id]
  {
    hide D.CreateOfferQuote;
  }

  lemma ExtendLeavesEnded(w: World, i: nat, until: int, id: nat)
    requires id < |w.offers| && Ended(w.offers[id]) && w.offers[id].checkout.None?
    ensures var v := ExtendStep(w, i, until); id < |v.offers| && v.offers[id] == w.offers[id]
  {
    hide D.Extend;
  }

  lemma StepLeavesEnded(cfg: P.Config, w: World, e: Event, id: nat)
    requires Links(w) && id < |w.offers| && Ended(w.offers[id])
    ensures var v := Step(cfg, w, e); id < |v.offers| && v.offers[id] == w.offers[id]
  {
    hide Links, PayStep, OfferQuoteStep, ExtendStep, B.Step, B.Start, D.CreateQuote, D.Move, CaseStep, B.Act;
    EndedIsNotQuoted(w, id);
    match e
    case Pay(a, ch, valid, available) => PayLeavesEnded(cfg, w, a, ch, valid, available, id);
    case CreateOfferQuote(offer, starts, buffer) => QuoteLeavesEnded(w, offer, starts, buffer, id);
    case ExtendHold(i, until) => ExtendLeavesEnded(w, i, until, id);
    case RespondOffer(offer, side, version, action) => EndedIsFinal(w.offers[id], side, version, action, w.books.clock);
    case _ =>
  }

  /** Over every run an offer that was withdrawn or declined, or that lapsed
      before anybody agreed, keeps its row exactly: it takes no further answer,
      and nobody ever quotes it, agrees to it or books it. */
  lemma {:induction false} EndedStaysEnded(cfg: P.Config, w: World, es: seq<Event>, id: nat)
    requires Inv(cfg, w) && id < |w.offers|
    requires w.offers[id].state == Withdrawn || w.offers[id].state == Declined
      || (w.offers[id].state == Lapsed && w.offers[id].checkout.None?)
    ensures var v := Run(cfg, w, es);
      && id < |v.offers| && v.offers[id] == w.offers[id] && v.offers[id].booking.None?
      && (forall side, version, action, now :: Respond(v.offers[id], side, version, action, now) == (v.offers[id], false))
      && (forall i | 0 <= i < |v.quotes| :: v.quotes[i].offer != Some(id))
      && (forall b | 0 <= b < |v.books.cases| ::
            0 <= v.books.cases[b].quote < |v.quotes| && v.quotes[v.books.cases[b].quote].offer != Some(id))
  {
    hide BI.Inv, D.DiaryOk, Step, Links, Respond;
    if es != [] {
      EndedStaysEnded(cfg, w, es[..|es| - 1], id);
      WR.RunKeeps(cfg, w, es[..|es| - 1]);
      StepLeavesEnded(cfg, Run(cfg, w, es[..|es| - 1]), es[|es| - 1], id);
    }
    var v := Run(cfg, w, es);
    WR.RunKeeps(cfg, w, es);
    EndedIsNotQuoted(v, id);
    forall side, version, action, now ensures Respond(v.offers[id], side, version, action, now) == (v.offers[id], false) {
      EndedIsFinal(v.offers[id], side, version, action, now);
    }
    forall b | 0 <= b < |v.books.cases| ensures 0 <= v.books.cases[b].quote < |v.quotes| {
      WR.BookingSlot(v, b);
    }
  }
}
