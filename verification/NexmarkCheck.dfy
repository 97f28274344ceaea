/**
 The self-checks of the NEXMark generator: a per-event range check, and a reference checker that
 recounts from the stream itself what the generator computes in closed form.
 */
module NexmarkCheck {
  import opened Integers
  import opened Wrappers
  import opened Nexmark

  // ---- the reference checker ----

  function PersonIds(evs: seq<NxEvent>): set<int> {
    set k | 0 <= k < |evs| && evs[k].Person? :: evs[k].id
  }

  function AuctionIds(evs: seq<NxEvent>): set<int> {
    set k | 0 <= k < |evs| && evs[k].Auction? :: evs[k].id
  }

  /** A seller or bidder outside the recent window plus lead, or in the past but never emitted. */
  predicate BadPersonRef(id: int, ids: set<int>, soFar: int) {
    var base0 := id - FIRST_PERSON_ID;
    !(Max(soFar - NUM_ACTIVE_PEOPLE, 0) <= base0 < soFar + PERSON_ID_LEAD) || (base0 < soFar && id !in ids)
  }

  predicate BadAuctionRef(id: int, ids: set<int>, soFar: int) {
    var base0, last := id - FIRST_AUCTION_ID, soFar - 1;
    base0 < Max(last - NUM_IN_FLIGHT_AUCTIONS, 0) || base0 > last + AUCTION_ID_LEAD || (base0 <= last && id !in ids)
  }

  function One(b: bool): nat {
    if b then 1 else 0
  }

  /** The violations of one event, given the events before it. */
  function Violations(before: seq<NxEvent>, ev: NxEvent): nat {
    match ev
    case Person(id, _, _, _) => One(id in PersonIds(before))
    case Auction(id, _, _, _, _, seller, _) =>
      One(id in AuctionIds(before)) + One(BadPersonRef(seller, PersonIds(before), CountPersons(before)))
    case Bid(auc, _, _, bidder, _, _, _) =>
      One(BadAuctionRef(auc, AuctionIds(before), CountAuctions(before)))
      + One(BadPersonRef(bidder, PersonIds(before), CountPersons(before)))
  }

  function TotalViolations(evs: seq<NxEvent>): nat {
    if evs == [] then 0
    else
      var n := |evs| - 1;
      TotalViolations(evs[..n]) + Violations(evs[..n], evs[n])
  }

  lemma OneMoreSeen(evs: seq<NxEvent>, k: nat)
    requires k < |evs|
    ensures PersonIds(evs[..k + 1]) == PersonIds(evs[..k]) + if evs[k].Person? then {evs[k].id} else {}
    ensures AuctionIds(evs[..k + 1]) == AuctionIds(evs[..k]) + if evs[k].Auction? then {evs[k].id} else {}
  {
    var before, upTo := evs[..k], evs[..k + 1];
    assert upTo == before + [evs[k]];
    assert evs[k].Person? ==> upTo[k].Person? && upTo[k].id in PersonIds(upTo);
    assert evs[k].Auction? ==> upTo[k].Auction? && upTo[k].id in AuctionIds(upTo);
    forall id | id in PersonIds(before) ensures id in PersonIds(upTo) {
      var j :| 0 <= j < k && before[j].Person? && before[j].id == id;
      assert upTo[j] == before[j];
    }
    forall id | id in AuctionIds(before) ensures id in AuctionIds(upTo) {
      var j :| 0 <= j < k && before[j].Auction? && before[j].id == id;
      assert upTo[j] == before[j];
    }
  }

  /** The checking callback, over the whole replayed stream. */
  method CheckReferences(evs: seq<NxEvent>) returns (refViolations: nat)
    ensures refViolations == TotalViolations(evs)
  {
    hide BadPersonRef, BadAuctionRef, PersonIds, AuctionIds;
    var personIds: set<int>, auctionIds: set<int> := {}, {};
    var personsSoFar, auctionsSoFar := 0, 0;
    refViolations := 0;
    NoIdsYet(evs);
    for k := 0 to |evs|
      invariant personIds == PersonIds(evs[..k]) && auctionIds == AuctionIds(evs[..k])
      invariant personsSoFar == CountPersons(evs[..k]) && auctionsSoFar == CountAuctions(evs[..k])
      invariant refViolations == TotalViolations(evs[..k])
    {
      assert evs[..k + 1][..k] == evs[..k];
      OneMoreSeen(evs, k);
      match evs[k]
      case Person(id, _, _, _) =>
        if id in personIds {
          refViolations := refViolations + 1;
        }
        personIds := personIds + {id};
        personsSoFar := personsSoFar + 1;
      case Auction(id, _, _, _, _, seller, _) =>
        if id in auctionIds {
          refViolations := refViolations + 1;
        }
        auctionIds := auctionIds + {id};
        if BadPersonRef(seller, personIds, personsSoFar) {
          refViolations := refViolations + 1;
        }
        auctionsSoFar := auctionsSoFar + 1;
      case Bid(auc, _, _, bidder, _, _, _) =>
        if BadAuctionRef(auc, auctionIds, auctionsSoFar) {
          refViolations := refViolations + 1;
        }
        if BadPersonRef(bidder, personIds, personsSoFar) {
          refViolations := refViolations + 1;
        }
    }
    assert evs[..|evs|] == evs;
  }

  lemma NoIdsYet(evs: seq<NxEvent>)
    ensures PersonIds(evs[..0]) == {} && AuctionIds(evs[..0]) == {}
  {
  }

  // ---- generated streams pass ----

  /** Before a person or an auction, its own kind's count; before anything else, one more than the closed form. */
  lemma CountsBefore(evs: seq<NxEvent>, k: nat)
    requires Generated(evs) && k < |evs|
    ensures CountPersons(evs[..k]) == LastBase0PersonId(k) + 1 - One(evs[k].Person?)
    ensures CountAuctions(evs[..k]) == LastBase0AuctionId(k) + 1 - One(evs[k].Auction?)
  {
    LastIdsCountTheStream(evs, k);
    assert evs[..k + 1][..k] == evs[..k];
  }

  /** The person numbered `base0` is event 50 * base0. */
  lemma PastPersonIsThere(evs: seq<NxEvent>, k: nat, base0: int)
    requires Generated(evs) && k < |evs| && 1 <= k % 50 && 0 <= base0 <= LastBase0PersonId(k)
    ensures FIRST_PERSON_ID + base0 in PersonIds(evs[..k])
  {
    var j: nat := 50 * base0;
    assert base0 <= k / 50 && j < k && j / 50 == base0 && j % 50 == 0;
    assert CanEmit(j, evs[j]);
    assert evs[..k][j].Person? && evs[..k][j].id == FIRST_PERSON_ID + base0;
  }

  lemma AuctionNumber(base0: nat) returns (j: nat)
    ensures j == 50 * (base0 / 3) + 1 + base0 % 3
    ensures LastBase0AuctionId(j) == base0 && 1 <= j % 50 < 4
  {
    j := 50 * (base0 / 3) + 1 + base0 % 3;
    assert j / 50 == base0 / 3 && j % 50 == 1 + base0 % 3;
  }

  lemma PastAuctionIsThere(evs: seq<NxEvent>, k: nat, base0: int)
    requires Generated(evs) && k < |evs| && 4 <= k % 50 && 0 <= base0 <= LastBase0AuctionId(k)
    ensures FIRST_AUCTION_ID + base0 in AuctionIds(evs[..k])
  {
    var j := AuctionNumber(base0);
    assert LastBase0AuctionId(k) == k / 50 * 3 + 2;
    assert base0 / 3 <= k / 50;
    assert j < k;
    assert CanEmit(j, evs[j]);
    KindOf(j, evs[j]);
    assert evs[..k][j].Auction? && evs[..k][j].id == FIRST_AUCTION_ID + base0;
  }

  lemma PersonIdIsNew(evs: seq<NxEvent>, k: nat)
    requires Generated(evs) && k < |evs| && evs[k].Person?
    ensures evs[k].id !in PersonIds(evs[..k])
  {
    assert CanEmit(k, evs[k]);
    KindOf(k, evs[k]);
    forall j | 0 <= j < k && evs[j].Person? ensures evs[j].id != evs[k].id {
      assert CanEmit(j, evs[j]);
      KindOf(j, evs[j]);
    }
  }

  /** The closed form never falls, and two auctions never share it. */
  lemma {:induction false} AuctionNumbersRise(j: nat, k: nat)
    requires j < k
    ensures LastBase0AuctionId(j) <= LastBase0AuctionId(k)
    ensures 1 <= k % 50 < 4 ==> LastBase0AuctionId(j) < LastBase0AuctionId(k)
    decreases k
  {
    hide LastBase0AuctionId;
    ClosedFormsStep(k);
    if j < k - 1 {
      AuctionNumbersRise(j, k - 1);
    }
  }

  lemma AuctionIdIsNew(evs: seq<NxEvent>, k: nat)
    requires Generated(evs) && k < |evs| && evs[k].Auction?
    ensures evs[k].id !in AuctionIds(evs[..k])
  {
    assert CanEmit(k, evs[k]);
    KindOf(k, evs[k]);
    forall j | 0 <= j < k && evs[j].Auction? ensures evs[j].id != evs[k].id {
      assert CanEmit(j, evs[j]);
      KindOf(j, evs[j]);
      AuctionNumbersRise(j, k);
    }
  }

  /** How far a seller or bidder lies from the last person: within the window, and past ones exist. */
  lemma PersonRefRange(k: nat, p: Pick)
    requires InRange(p, PersonRange(k))
    ensures var n := LastBase0PersonId(k) + 1;
      && Max(n - NUM_ACTIVE_PEOPLE, 0) <= Seller(k, p) - FIRST_PERSON_ID < n + PERSON_ID_LEAD
      && Max(n - NUM_ACTIVE_PEOPLE, 0) <= Bidder(k, p) - FIRST_PERSON_ID < n + PERSON_ID_LEAD
  {
  }

  lemma AuctionRefRange(k: nat, p: Pick)
    requires 4 <= k % 50 && InRange(p, AuctionRange(k))
    ensures var last := LastBase0AuctionId(k);
      0 <= last && Max(last - NUM_IN_FLIGHT_AUCTIONS, 0) <= BidAuction(k, p) - FIRST_AUCTION_ID <= last + AUCTION_ID_LEAD
  {
  }

  lemma PersonRefIsGood(evs: seq<NxEvent>, k: nat, id: int)
    requires Generated(evs) && k < |evs| && !evs[k].Person?
    requires var n := LastBase0PersonId(k) + 1;
      Max(n - NUM_ACTIVE_PEOPLE, 0) <= id - FIRST_PERSON_ID < n + PERSON_ID_LEAD
    ensures !BadPersonRef(id, PersonIds(evs[..k]), CountPersons(evs[..k]))
  {
    hide PersonIds, LastBase0PersonId;
    CountsBefore(evs, k);
    assert CanEmit(k, evs[k]);
    KindOf(k, evs[k]);
    var base0 := id - FIRST_PERSON_ID;
    if base0 <= LastBase0PersonId(k) {
      PastPersonIsThere(evs, k, base0);
    }
  }

  lemma AuctionRefIsGood(evs: seq<NxEvent>, k: nat, id: int)
    requires Generated(evs) && k < |evs| && 4 <= k % 50
    requires var last := LastBase0AuctionId(k);
      Max(last - NUM_IN_FLIGHT_AUCTIONS, 0) <= id - FIRST_AUCTION_ID <= last + AUCTION_ID_LEAD
    ensures !BadAuctionRef(id, AuctionIds(evs[..k]), CountAuctions(evs[..k]))
  {
    hide AuctionIds, LastBase0AuctionId;
    CountsBefore(evs, k);
    assert CanEmit(k, evs[k]);
    KindOf(k, evs[k]);
    var base0 := id - FIRST_AUCTION_ID;
    if base0 <= LastBase0AuctionId(k) {
      PastAuctionIsThere(evs, k, base0);
    }
  }

  lemma EventPasses(evs: seq<NxEvent>, k: nat)
    requires Generated(evs) && k < |evs|
    ensures Violations(evs[..k], evs[k]) == 0
  {
    hide PersonIds, AuctionIds, BadPersonRef, BadAuctionRef, LastBase0AuctionId, LastBase0PersonId, CountPersons,
      CountAuctions, Seller, Bidder, BidAuction, PersonRange, AuctionRange, Url;
    assert CanEmit(k, evs[k]);
    KindOf(k, evs[k]);
    var d :| Possible(k, d) && evs[k] == EventAt(k, d);
    match d
    case PersonDraws(_, _) =>
      PersonIdIsNew(evs, k);
    case AuctionDraws(seller, _, _, _, _) =>
      AuctionIdIsNew(evs, k);
      PersonRefRange(k, seller);
      PersonRefIsGood(evs, k, evs[k].seller);
    case BidDraws(auction, bidder, _, _, _, _, _) =>
      AuctionRefRange(k, auction);
      AuctionRefIsGood(evs, k, evs[k].auc);
      PersonRefRange(k, bidder);
      PersonRefIsGood(evs, k, evs[k].bidder);
  }

  /** Whatever is drawn, a generated stream has no reference violation. */
  lemma {:induction false} GeneratedStreamsPass(evs: seq<NxEvent>)
    requires Generated(evs)
    ensures TotalViolations(evs) == 0
  {
    hide Violations, CanEmit;
    if evs != [] {
      var n := |evs| - 1;
      GeneratedStreamsPass(evs[..n]);
      EventPasses(evs, n);
    }
  }

  // ---- what the checker finds ----

  /** A person has this id among the first `k` events. */
  ghost predicate PersonBefore(evs: seq<NxEvent>, k: nat, id: int) {
    exists j :: 0 <= j < k <= |evs| && evs[j].Person? && evs[j].id == id
  }

  ghost predicate AuctionBefore(evs: seq<NxEvent>, k: nat, id: int) {
    exists j :: 0 <= j < k <= |evs| && evs[j].Auction? && evs[j].id == id
  }

  /** Of the persons numbered in the order they are emitted: one of the last thousand, and emitted; or one of the next ten. */
  ghost predicate PersonRefOk(evs: seq<NxEvent>, k: nat, id: int)
    requires k <= |evs|
  {
    var n, number := CountPersons(evs[..k]), id - 1000;
    0 <= number && n - 1000 <= number && number < n + 10 && (number < n ==> PersonBefore(evs, k, id))
  }

  /** One of the last hundred and one auctions, and emitted; or one of the next ten. */
  ghost predicate AuctionRefOk(evs: seq<NxEvent>, k: nat, id: int)
    requires k <= |evs|
  {
    var n, number := CountAuctions(evs[..k]), id - 1000;
    0 <= number && n - 101 <= number && number < n + 10 && (number < n ==> AuctionBefore(evs, k, id))
  }

  ghost predicate EventOk(evs: seq<NxEvent>, k: nat)
    requires k < |evs|
  {
    match evs[k]
    case Person(id, _, _, _) => !PersonBefore(evs, k, id)
    case Auction(id, _, _, _, _, seller, _) => !AuctionBefore(evs, k, id) && PersonRefOk(evs, k, seller)
    case Bid(auc, _, _, bidder, _, _, _) => AuctionRefOk(evs, k, auc) && PersonRefOk(evs, k, bidder)
  }

  lemma IdsBefore(evs: seq<NxEvent>, k: nat, id: int)
    requires k <= |evs|
    ensures id in PersonIds(evs[..k]) <==> PersonBefore(evs, k, id)
    ensures id in AuctionIds(evs[..k]) <==> AuctionBefore(evs, k, id)
  {
    forall j | 0 <= j < k ensures evs[..k][j] == evs[j] {
    }
  }

  lemma RefsBefore(evs: seq<NxEvent>, k: nat, id: int)
    requires k <= |evs|
    ensures BadPersonRef(id, PersonIds(evs[..k]), CountPersons(evs[..k])) <==> !PersonRefOk(evs, k, id)
    ensures BadAuctionRef(id, AuctionIds(evs[..k]), CountAuctions(evs[..k])) <==> !AuctionRefOk(evs, k, id)
  {
    hide PersonIds, AuctionIds, PersonBefore, AuctionBefore;
    IdsBefore(evs, k, id);
  }

  lemma EventOkExactly(evs: seq<NxEvent>, k: nat)
    requires k < |evs|
    ensures Violations(evs[..k], evs[k]) == 0 <==> EventOk(evs, k)
  {
    hide PersonIds, AuctionIds, PersonBefore, AuctionBefore, BadPersonRef, BadAuctionRef, PersonRefOk, AuctionRefOk;
    match evs[k]
    case Person(id, _, _, _) => IdsBefore(evs, k, id);
    case Auction(id, _, _, _, _, seller, _) =>
      IdsBefore(evs, k, id);
      RefsBefore(evs, k, seller);
    case Bid(auc, _, _, bidder, _, _, _) =>
      RefsBefore(evs, k, auc);
      RefsBefore(evs, k, bidder);
  }

  lemma {:induction false} TotalUpTo(evs: seq<NxEvent>, n: nat)
    requires n <= |evs|
    ensures TotalViolations(evs[..n]) == 0 <==> forall k :: 0 <= k < n ==> Violations(evs[..k], evs[k]) == 0
  {
    hide Violations;
    if n > 0 {
      TotalUpTo(evs, n - 1);
      assert evs[..n][..n - 1] == evs[..n - 1] && evs[..n][n - 1] == evs[n - 1];
    }
  }

  /**
   The checker passes a stream, any stream, exactly when no id is emitted twice and every reference
   is to one of the recent entities, which is there, or to one of the next ten.
   */
  lemma PassesExactly(evs: seq<NxEvent>)
    ensures TotalViolations(evs) == 0 <==> forall k :: 0 <= k < |evs| ==> EventOk(evs, k)
  {
    hide Violations, EventOk;
    TotalUpTo(evs, |evs|);
    assert evs[..|evs|] == evs;
    forall k | 0 <= k < |evs| ensures Violations(evs[..k], evs[k]) == 0 <==> EventOk(evs, k) {
      EventOkExactly(evs, k);
    }
  }

  // ---- where the picks fall ----

  /** A hot pick is the last person at a multiple of a hundred, for a bidder the next one. */
  lemma HotPersons(k: nat)
    ensures var seller, last := Seller(k, Hot) - 1000, LastBase0PersonId(k);
      seller % 100 == 0 && seller <= last < seller + 100 && Bidder(k, Hot) == Seller(k, Hot) + 1
  {
  }

  lemma HotAuctions(k: nat)
    ensures var auction, last := BidAuction(k, Hot) - 1000, LastBase0AuctionId(k);
      auction % 100 == 0 && auction <= last < auction + 100
  {
  }

  /** Cold picks fall on every person of the window plus lead, each from one draw. */
  lemma ColdPersons(k: nat, id: int)
    ensures var n := LastBase0PersonId(k) + 1;
      (exists d :: InRange(Cold(d), PersonRange(k)) && Seller(k, Cold(d)) == id) <==>
      Max(n - 1000, 0) <= id - 1000 < n + 10
    ensures forall d :: Bidder(k, Cold(d)) == Seller(k, Cold(d))
    ensures forall d, e | InRange(Cold(d), PersonRange(k)) && InRange(Cold(e), PersonRange(k)) ::
      Seller(k, Cold(d)) == Seller(k, Cold(e)) ==> d == e
  {
    var n := LastBase0PersonId(k) + 1;
    if Max(n - 1000, 0) <= id - 1000 < n + 10 {
      assert InRange(Cold(id - 1000 - Max(n - 1000, 0)), PersonRange(k));
    }
  }

  /** And on every auction of its window plus lead. */
  lemma ColdAuctions(k: nat, id: int)
    requires 1 <= k % 50
    ensures var last := LastBase0AuctionId(k);
      (exists d :: InRange(Cold(d), AuctionRange(k)) && BidAuction(k, Cold(d)) == id) <==>
      Max(last - 100, 0) <= id - 1000 <= last + 10
  {
    var last := LastBase0AuctionId(k);
    if Max(last - 100, 0) <= id - 1000 <= last + 10 {
      assert InRange(Cold(id - 1000 - Max(last - 100, 0)), AuctionRange(k));
    }
  }

  // ---- the range check ----

  function CountSlashes(s: string): nat {
    if s == "" then 0 else CountSlashes(s[..|s| - 1]) + if s[|s| - 1] == '/' then 1 else 0
  }

  ghost predicate Contains(s: string, part: string) {
    exists k :: StandsAt(s, part, k)
  }

  predicate StandsAt(s: string, part: string, k: int) {
    0 <= k <= |s| - |part| && s[k..k + |part|] == part
  }

  const ID_PARAM: string := "channel_id="

  ghost predicate BadUrl(url: string, channel: int, channelId: Option<int>) {
    || CountSlashes(url) + 1 < 7
    || !(HOST + "/" <= url)
    || (channelId.Some? && !Contains(url, ID_PARAM + Decimal(channelId.value)))
    || (channelId.None? && channel >= HOT_CHANNEL_MAX && Contains(url, ID_PARAM))
  }

  /** `check_event`: whether the event is out of range for a run of `count` events. */
  ghost predicate Flagged(ev: NxEvent, count: nat) {
    var numPerson, numAuction := (count as real * 0.02).Floor, (count as real * 0.06).Floor;
    var personHi := FIRST_PERSON_ID + numPerson - 1 + PERSON_ID_LEAD;
    var auctionHi := FIRST_AUCTION_ID + numAuction - 1 + AUCTION_ID_LEAD;
    match ev
    case Person(id, _, city, state) =>
      !(FIRST_PERSON_ID <= id <= personHi) || city >= NUM_CITIES || state >= NUM_STATES
    case Auction(id, ns, initialBid, reserve, expires, seller, category) =>
      || !(FIRST_AUCTION_ID <= id <= auctionHi)
      || initialBid < 100
      || reserve < initialBid
      || expires < ns
      || !(FIRST_PERSON_ID <= seller <= personHi)
      || !(FIRST_CATEGORY_ID <= category < FIRST_CATEGORY_ID + NUM_CATEGORIES)
    case Bid(auc, _, price, bidder, channel, channelId, url) =>
      || !(FIRST_AUCTION_ID <= auc <= auctionHi)
      || !(FIRST_PERSON_ID <= bidder <= personHi)
      || price < 100
      || channel >= CHANNEL_MAX
      || BadUrl(url, channel, channelId)
  }

  lemma Shares(count: nat)
    ensures (count as real * 0.02).Floor == count / 50
    ensures (count as real * 0.06).Floor == count * 3 / 50
  {
    var q, r := count / 50, count % 50;
    assert count == 50 * q + r;
    assert count as real * 0.02 == q as real + r as real * 0.02;
    var q3, r3 := count * 3 / 50, count * 3 % 50;
    assert count * 3 == 50 * q3 + r3;
    assert count as real * 0.06 == q3 as real + r3 as real * 0.02;
  }

  // ---- urls ----

  lemma {:induction false} SlashesOfConcat(s: string, t: string)
    ensures CountSlashes(s + t) == CountSlashes(s) + CountSlashes(t)
  {
    if t == "" {
      assert s + t == s;
    } else {
      assert (s + t)[..|s + t| - 1] == s + t[..|t| - 1];
      SlashesOfConcat(s, t[..|t| - 1]);
    }
  }

  lemma SlashAtEnd(s: string, t: string)
    ensures CountSlashes(s + "/" + t) == CountSlashes(s) + 1 + CountSlashes(t)
  {
    SlashesOfConcat(s + "/", t);
    assert (s + "/")[..|s|] == s;
  }

  lemma HostSlashes()
    ensures CountSlashes(HOST) >= 2
  {
    SlashAtEnd("https:", "");
    SlashAtEnd("https:/", "www.nexmark.com");
    assert "https:" + "/" + "" == "https:/";
    assert "https:/" + "/" + "www.nexmark.com" == HOST;
  }

  lemma FourMoreSlashes(h: string, s1: string, s2: string, s3: string, t: string)
    ensures CountSlashes(h + "/" + s1 + "/" + s2 + "/" + s3 + "/" + t) >= CountSlashes(h) + 4
  {
    hide CountSlashes;
    SlashAtEnd(h, s1);
    SlashAtEnd(h + "/" + s1, s2);
    SlashAtEnd(h + "/" + s1 + "/" + s2, s3);
    SlashAtEnd(h + "/" + s1 + "/" + s2 + "/" + s3, t);
  }

  lemma UrlHasSixSlashes(s1: string, s2: string, s3: string, id: Option<int>)
    ensures CountSlashes(Url(s1, s2, s3, id)) >= 6 && HOST + "/" <= Url(s1, s2, s3, id)
  {
    hide CountSlashes;
    HostSlashes();
    var t := match id case Some(n) => QUERY + "&channel_id=" + Decimal(n) case None => QUERY;
    FourMoreSlashes(HOST, s1, s2, s3, t);
  }

  lemma UrlHasItsId(s1: string, s2: string, s3: string, id: int)
    ensures Contains(Url(s1, s2, s3, Some(id)), ID_PARAM + Decimal(id))
  {
    hide Decimal;
    var base := Url(s1, s2, s3, None) + "&";
    var part := ID_PARAM + Decimal(id);
    var url := Url(s1, s2, s3, Some(id));
    assert url == base + part;
    assert StandsAt(url, part, |base|);
  }

  predicate NoEquals(s: string) {
    forall i :: 0 <= i < |s| ==> s[i] != '='
  }

  lemma NoEqualsConcat(s: string, t: string)
    ensures NoEquals(s + t) <==> NoEquals(s) && NoEquals(t)
  {
    assert forall i :: 0 <= i < |s| ==> (s + t)[i] == s[i];
    assert forall i :: 0 <= i < |t| ==> (s + t)[|s| + i] == t[i];
  }

  lemma ParamSpells(url: string, k: int)
    requires StandsAt(url, ID_PARAM, k)
    ensures 0 <= k <= |url| - 11 && url[k + 9] == 'd' && url[k + 10] == '='
  {
    var there := url[k..k + |ID_PARAM|];
    assert there[9] == 'd' && there[10] == '=';
  }

  /** Where the one `=` follows a `y`, the parameter is not. */
  lemma NotInside(front: string)
    requires NoEquals(front) && front != "" && front[|front| - 1] == 'y'
    ensures !Contains(front + "=1", ID_PARAM)
  {
    var url := front + "=1";
    forall k ensures !StandsAt(url, ID_PARAM, k) {
      if StandsAt(url, ID_PARAM, k) {
        ParamSpells(url, k);
      }
    }
  }

  /** The only `=` of a URL without the parameter closes `query=`. */
  lemma UrlHasNoId(s1: string, s2: string, s3: string)
    requires IsSegment(s1) && IsSegment(s2) && IsSegment(s3)
    ensures !Contains(Url(s1, s2, s3, None), ID_PARAM)
  {
    var front := HOST + "/" + s1 + "/" + s2 + "/" + s3 + "/" + "item.htm?query";
    NoEqualsConcat(HOST, "/");
    NoEqualsConcat(HOST + "/", s1);
    NoEqualsConcat(HOST + "/" + s1, "/");
    NoEqualsConcat(HOST + "/" + s1 + "/", s2);
    NoEqualsConcat(HOST + "/" + s1 + "/" + s2, "/");
    NoEqualsConcat(HOST + "/" + s1 + "/" + s2 + "/", s3);
    NoEqualsConcat(HOST + "/" + s1 + "/" + s2 + "/" + s3, "/");
    NoEqualsConcat(HOST + "/" + s1 + "/" + s2 + "/" + s3 + "/", "item.htm?query");
    NotInside(front);
    assert QUERY == "item.htm?query" + "=1";
    assert Url(s1, s2, s3, None) == front + "=1";
  }

  lemma UrlsAreGood(d: Draws)
    requires d.BidDraws? && ChannelOk(d.channel) && IsSegment(d.s1) && IsSegment(d.s2) && IsSegment(d.s3)
    ensures var id := if d.channel.ColdChannel? then d.channel.id else None;
      !BadUrl(Url(d.s1, d.s2, d.s3, id),
              if d.channel.HotChannel? then d.channel.i else HOT_CHANNEL_MAX + d.channel.i, id)
  {
    hide Contains, CountSlashes, Url;
    var id := if d.channel.ColdChannel? then d.channel.id else None;
    UrlHasSixSlashes(d.s1, d.s2, d.s3, id);
    if id.Some? {
      UrlHasItsId(d.s1, d.s2, d.s3, id.value);
    } else {
      UrlHasNoId(d.s1, d.s2, d.s3);
    }
  }

  // ---- exactly when nothing is flagged ----

  /** In a run that ends with a whole epoch, or one person past it, the last epoch's references stay in range. */
  lemma WithinTheRun(count: nat, k: nat)
    requires count % 50 <= 1 && k < count
    ensures 0 <= LastBase0PersonId(k) <= count / 50 && LastBase0AuctionId(k) <= count * 3 / 50 - 1 + One(k % 50 < 1)
    ensures k % 50 >= 1 ==> LastBase0PersonId(k) + 1 <= count / 50 && LastBase0AuctionId(k) + 1 <= count * 3 / 50
    ensures k % 50 >= 1 ==> 0 <= LastBase0AuctionId(k)
  {
    var q := count / 50;
    assert count * 3 / 50 == 3 * q;
    assert k / 50 <= q;
    if k % 50 >= 1 {
      assert k / 50 < q;
    }
  }

  lemma NotFlagged(count: nat, k: nat, ev: NxEvent)
    requires count % 50 <= 1 && k < count && CanEmit(k, ev)
    ensures !Flagged(ev, count)
  {
    hide LastBase0PersonId, LastBase0AuctionId, Seller, Bidder, BidAuction, PersonRange, AuctionRange, BadUrl, Url;
    Shares(count);
    WithinTheRun(count, k);
    KindOf(k, ev);
    var d :| Possible(k, d) && ev == EventAt(k, d);
    match d
    case PersonDraws(_, _) =>
    case AuctionDraws(seller, _, _, _, _) =>
      PersonRefRange(k, seller);
    case BidDraws(auction, bidder, _, _, _, _, _) =>
      PersonRefRange(k, bidder);
      AuctionRefRange(k, auction);
      UrlsAreGood(d);
  }

  /** Any other run can draw a seller one past the bound: the first auction of the broken epoch, at full lead. */
  lemma OnePastTheBound(count: nat) returns (k: nat, ev: NxEvent)
    requires count % 50 >= 2
    ensures k < count && CanEmit(k, ev) && Flagged(ev, count)
  {
    Shares(count);
    k := 50 * (count / 50) + 1;
    assert k / 50 == count / 50 && k % 50 == 1;
    var d := AuctionDraws(Cold(PersonRange(k) - 1), 0, 100, 0, 100);
    assert Possible(k, d);
    ev := EventAt(k, d);
  }

  /** The range check never flags a generated event, whatever is drawn. */
  ghost predicate NeverFlags(count: nat) {
    forall k: nat, ev | k < count && CanEmit(k, ev) :: !Flagged(ev, count)
  }

  lemma NeverFlagsExactly(count: nat)
    ensures NeverFlags(count) <==> count % 50 <= 1
  {
    if count % 50 <= 1 {
      forall k: nat, ev | k < count && CanEmit(k, ev) ensures !Flagged(ev, count) {
        NotFlagged(count, k, ev);
      }
    } else {
      var k, ev := OnePastTheBound(count);
    }
  }
}
