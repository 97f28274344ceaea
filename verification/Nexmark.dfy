/**
 The NEXMark event generator: fifty events an epoch (one person, three auctions, forty-six bids),
 ids and references computed in closed form from the event number.
 */
module Nexmark {
  import opened Integers
  import opened Wrappers

  const BASE_NS: int := 1767225600000000000
  const INTER_EVENT_DELAY_NS: int := 100_000
  const FIRST_PERSON_ID: int := 1000
  const FIRST_AUCTION_ID: int := 1000
  const PERSON_PROPORTION: int := 1
  const AUCTION_PROPORTION: int := 3
  const BID_PROPORTION: int := 46
  const TOTAL_PROPORTION: int := PERSON_PROPORTION + AUCTION_PROPORTION + BID_PROPORTION
  const FIRST_CATEGORY_ID: int := 10
  const NUM_CATEGORIES: int := 5
  const HOT_AUCTION_BATCH: int := 100
  const HOT_SELLER_BATCH: int := 100
  const HOT_BIDDER_BATCH: int := 100
  const NUM_ACTIVE_PEOPLE: int := 1000
  const PERSON_ID_LEAD: int := 10
  const NUM_IN_FLIGHT_AUCTIONS: int := 100
  const AUCTION_ID_LEAD: int := 10
  const CHANNELS_NUMBER: int := 10_000
  const HOT_CHANNEL_MAX: int := 4
  const CHANNEL_MAX: int := HOT_CHANNEL_MAX + CHANNELS_NUMBER
  const NUM_CITIES: int := 10
  const NUM_STATES: int := 6
  const MIN_PRICE: int := 100
  /** Rounding can reach the bound that the price itself stays below. */
  const MAX_PRICE: int := 100_000_000

  datatype NxEvent =
    | Person(id: int, ns: int, city: int, state: int)
    | Auction(id: int, ns: int, initialBid: int, reserve: int, expires: int, seller: int, category: int)
    | Bid(auc: int, ns: int, price: int, bidder: int, channel: int, channelId: Option<int>, url: string)

  // ---- closed forms ----

  function LastBase0PersonId(eventId: nat): int {
    eventId / TOTAL_PROPORTION * PERSON_PROPORTION + Min(eventId % TOTAL_PROPORTION, PERSON_PROPORTION - 1)
  }

  function LastBase0AuctionId(eventId: nat): int {
    var epoch, offset := eventId / TOTAL_PROPORTION, eventId % TOTAL_PROPORTION;
    if offset < PERSON_PROPORTION then (epoch - 1) * AUCTION_PROPORTION + (AUCTION_PROPORTION - 1)
    else if offset >= PERSON_PROPORTION + AUCTION_PROPORTION then epoch * AUCTION_PROPORTION + (AUCTION_PROPORTION - 1)
    else epoch * AUCTION_PROPORTION + (offset - PERSON_PROPORTION)
  }

  function AuctionHorizonMs(eventId: nat): int {
    var numEventsForAuctions := NUM_IN_FLIGHT_AUCTIONS * TOTAL_PROPORTION / AUCTION_PROPORTION;
    var now := eventId * INTER_EVENT_DELAY_NS / 1_000_000;
    var future := (eventId + numEventsForAuctions) * INTER_EVENT_DELAY_NS / 1_000_000;
    Max(future - now, 1)
  }

  // ---- what the random generator decides ----

  /** The frequent entity of the batch, or a draw from the recent window. */
  datatype Pick = Hot | Cold(n: int)

  datatype Channel = HotChannel(i: int) | ColdChannel(i: int, id: Option<int>)

  datatype Draws =
    | PersonDraws(city: int, state: int)
    | AuctionDraws(seller: Pick, category: int, initial: int, length: int, over: int)
    | BidDraws(auction: Pick, bidder: Pick, price: int, channel: Channel, s1: string, s2: string, s3: string)

  function PersonRange(eventId: nat): int {
    Min(LastBase0PersonId(eventId) + 1, NUM_ACTIVE_PEOPLE) + PERSON_ID_LEAD
  }

  function AuctionRange(eventId: nat): int {
    var last := LastBase0AuctionId(eventId);
    last - Max(last - NUM_IN_FLIGHT_AUCTIONS, 0) + 1 + AUCTION_ID_LEAD
  }

  predicate InRange(p: Pick, n: int) {
    p.Cold? ==> 0 <= p.n < n
  }

  /** What `next_string` draws before it trims: from three characters to one less than the maximum. */
  predicate IsDrawn(s: string, maxLen: nat, special: char) {
    && 3 <= |s| < 3 + Max(maxLen - 3, 1)
    && forall i :: 0 <= i < |s| ==> s[i] == special || 'a' <= s[i] <= 'z'
  }

  /** A path segment of the URL, where there is nothing to trim. */
  predicate IsSegment(s: string) {
    IsDrawn(s, 5, '_')
  }

  /** It has three or four characters, small letters and underscores. */
  lemma SegmentsExactly(s: string)
    ensures IsSegment(s) <==>
      3 <= |s| <= 4 && forall i :: 0 <= i < |s| ==> 'a' <= s[i] <= 'z' || s[i] == '_'
  {
  }

  // ---- channel ids ----

  /** The low `n` bits in reverse order. */
  function Reversed(i: nat, n: nat): nat {
    if n == 0 then 0 else i % 2 * Pow2(n - 1) + Reversed(i / 2, n - 1)
  }

  function Pow2(n: nat): (p: nat)
    ensures 0 < p
  {
    if n == 0 then 1 else 2 * Pow2(n - 1)
  }

  function AsI32(n: nat): int {
    var w := n % 0x1_0000_0000;
    if w > 0x7fff_ffff then w - 0x1_0000_0000 else w
  }

  /** `wrapping_abs`: the least number has no positive counterpart and stays as it is. */
  function WrappingAbs(n: int): int {
    if n == -0x8000_0000 then n else if n < 0 then -n else n
  }

  /** `(i as i32).reverse_bits().wrapping_abs()`. */
  function ChannelId(i: nat): int {
    WrappingAbs(AsI32(Reversed(i % 0x1_0000_0000, 32)))
  }

  lemma {:induction false} ReversedBelow(i: nat, n: nat)
    ensures Reversed(i, n) < Pow2(n)
  {
    if n > 0 {
      ReversedBelow(i / 2, n - 1);
      if i % 2 == 1 {
        assert i % 2 * Pow2(n - 1) == Pow2(n - 1);
      } else {
        assert i % 2 * Pow2(n - 1) == 0;
      }
    }
  }

  /** The last bit comes first. */
  lemma ReversedParity(i: nat, n: nat)
    ensures Reversed(i, n + 1) == (if i % 2 == 1 then Pow2(n) else 0) + Reversed(i / 2, n)
  {
    assert i % 2 * Pow2(n) == if i % 2 == 1 then Pow2(n) else 0;
  }

  lemma {:induction false} ReversedZero(i: nat, n: nat)
    requires i < Pow2(n)
    ensures Reversed(i, n) == 0 <==> i == 0
  {
    if n > 0 {
      ReversedZero(i / 2, n - 1);
      ReversedParity(i, n - 1);
    }
  }

  lemma {:induction false} ReversedTop(top: nat, t: nat, n: nat)
    requires top <= 1 && t < Pow2(n)
    ensures Reversed(top * Pow2(n) + t, n + 1) == 2 * Reversed(t, n) + top
  {
    if n == 0 {
      assert Pow2(0) == 1 && Reversed(top, 1) == top % 2 * Pow2(0) + Reversed(top / 2, 0);
    } else {
      var half := top * Pow2(n - 1);
      assert top * Pow2(n) == 2 * half;
      assert (2 * half + t) % 2 == t % 2 && (2 * half + t) / 2 == half + t / 2;
      ReversedTop(top, t / 2, n - 1);
      ReversedParity(2 * half + t, n);
      ReversedParity(t, n - 1);
    }
  }

  /** Reversing the bits again gives the number back. */
  lemma {:induction false} ReversedTwice(i: nat, n: nat)
    requires i < Pow2(n)
    ensures Reversed(Reversed(i, n), n) == i
  {
    if n > 0 {
      ReversedTwice(i / 2, n - 1);
      ReversedBelow(i / 2, n - 1);
      ReversedParity(i, n - 1);
      ReversedTop(i % 2, Reversed(i / 2, n - 1), n - 1);
      assert i % 2 * Pow2(n - 1) == if i % 2 == 1 then Pow2(n - 1) else 0;
    }
  }

  /** The absolute value of the number with these 32 bits, as it wraps. */
  function Folded(r: int): int {
    if r < 0x8000_0000 then r else if r == 0x8000_0000 then -r else 0x1_0000_0000 - r
  }

  lemma ChannelIdIs(i: nat)
    requires i < 0x1_0000_0000
    ensures 0 <= Reversed(i, 32) < 0x1_0000_0000 && Reversed(Reversed(i, 32), 32) == i
    ensures ChannelId(i) == Folded(Reversed(i, 32))
  {
    hide Pow2, Reversed;
    ThirtyOneBits();
    ReversedBelow(i, 32);
    ReversedTwice(i, 32);
  }

  lemma FoldedAlike(r: int, s: int)
    requires 0 <= r < 0x1_0000_0000 && 0 <= s < 0x1_0000_0000
    ensures -0x8000_0000 <= Folded(r) < 0x8000_0000
    ensures Folded(r) == Folded(s) <==> r == s || r + s == 0x1_0000_0000
  {
  }

  /** The id fits in 32 bits, and two channels share it exactly if their reversed numbers make up 2^32. */
  lemma ChannelIdsExactly(i: nat, j: nat)
    requires i < 0x1_0000_0000 && j < 0x1_0000_0000
    ensures -0x8000_0000 <= ChannelId(i) < 0x8000_0000
    ensures ChannelId(i) == ChannelId(j) <==> i == j || Reversed(i, 32) + Reversed(j, 32) == 0x1_0000_0000
  {
    ChannelIdIs(i);
    ChannelIdIs(j);
    hide Reversed, ChannelId, Folded;
    FoldedAlike(Reversed(i, 32), Reversed(j, 32));
  }

  /** So the ids do not tell the channels 2 and 3 apart. */
  lemma ChannelsShareAnId()
    ensures ChannelId(2) == ChannelId(3)
  {
    hide Pow2, ChannelId, Reversed;
    ThirtyOneBits();
    ReversedParity(2, 31);
    ReversedParity(3, 31);
    ReversedParity(1, 30);
    ReversedZero(0, 30);
    ChannelIdsExactly(2, 3);
  }

  lemma ThirtyOneBits()
    ensures Pow2(30) == 0x4000_0000 && Pow2(31) == 0x8000_0000 && Pow2(32) == 0x1_0000_0000
  {
    assert Pow2(8) == 0x100 && Pow2(16) == 0x100 * Pow2(8);
    assert Pow2(24) == 0x100 * Pow2(16) && Pow2(30) == 0x40 * Pow2(24);
    assert Pow2(31) == 2 * Pow2(30) && Pow2(32) == 2 * Pow2(31);
  }

  lemma OnlyTheLeastStaysNegative(r: nat)
    requires r < 0x1_0000_0000
    ensures WrappingAbs(AsI32(r)) < 0 <==> r == 0x8000_0000
  {
  }

  /** Of all 32-bit channel numbers, exactly 1 gets a negative id. */
  lemma NegativeIdExactly(i: nat)
    requires i < 0x1_0000_0000
    ensures ChannelId(i) < 0 <==> i == 1
  {
    hide Pow2, Reversed, WrappingAbs, AsI32;
    ThirtyOneBits();
    ReversedParity(i, 31);
    ReversedBelow(i / 2, 31);
    ReversedZero(i / 2, 31);
    OnlyTheLeastStaysNegative(Reversed(i, 32));
  }

  /** The lengths that `next_string` can draw: up to one less than the maximum, and never fewer than three. */
  lemma DrawnLengths(maxLen: nat, special: char, n: nat)
    ensures (exists s :: IsDrawn(s, maxLen, special) && |s| == n) <==> n == 3 || 3 <= n < maxLen
  {
    if n == 3 || 3 <= n < maxLen {
      assert IsDrawn(seq(n, _ => special), maxLen, special);
    }
  }

  predicate ChannelOk(c: Channel) {
    match c
    case HotChannel(i) => 0 <= i < HOT_CHANNEL_MAX
    case ColdChannel(i, id) => 0 <= i < CHANNELS_NUMBER && (id.Some? ==> id.value == ChannelId(i))
  }

  predicate IsPrice(price: int) {
    MIN_PRICE <= price <= MAX_PRICE
  }

  /** The draws that are possible for an event: each within the range the generator asks for. */
  predicate Possible(eventId: nat, d: Draws) {
    var rem := eventId % TOTAL_PROPORTION;
    if rem < PERSON_PROPORTION then
      d.PersonDraws? && 0 <= d.city < NUM_CITIES && 0 <= d.state < NUM_STATES
    else if rem < PERSON_PROPORTION + AUCTION_PROPORTION then
      && d.AuctionDraws? && InRange(d.seller, PersonRange(eventId)) && 0 <= d.category < NUM_CATEGORIES
      && IsPrice(d.initial) && IsPrice(d.over) && 0 <= d.length < AuctionHorizonMs(eventId) * 2
    else
      && d.BidDraws? && InRange(d.auction, AuctionRange(eventId)) && InRange(d.bidder, PersonRange(eventId))
      && IsPrice(d.price) && ChannelOk(d.channel) && IsSegment(d.s1) && IsSegment(d.s2) && IsSegment(d.s3)
  }

  // ---- the event ----

  function NextBase0PersonId(eventId: nat, n: int): int {
    var numPeople := LastBase0PersonId(eventId) + 1;
    Max(numPeople - Min(numPeople, NUM_ACTIVE_PEOPLE) + n, 0)
  }

  function NextBase0AuctionId(eventId: nat, n: int): int {
    Max(LastBase0AuctionId(eventId) - NUM_IN_FLIGHT_AUCTIONS, 0) + n
  }

  function Decimal(n: int): string
    decreases if n < 0 then 1 - n else n
  {
    if n < 0 then "-" + Decimal(-n)
    else if n < 10 then [('0' as int + n) as char]
    else Decimal(n / 10) + [('0' as int + n % 10) as char]
  }

  function ValueOf(s: string): int {
    if s == "" then 0
    else if s[0] == '-' then -ValueOf(s[1..])
    else 10 * ValueOf(s[..|s| - 1]) + (s[|s| - 1] as int - '0' as int)
  }

  predicate AreDigits(s: string) {
    s != "" && forall i :: 0 <= i < |s| ==> '0' <= s[i] <= '9'
  }

  lemma ValueOfMore(s: string, d: nat)
    requires AreDigits(s) && d < 10
    ensures AreDigits(s + [('0' as int + d) as char])
    ensures ValueOf(s + [('0' as int + d) as char]) == 10 * ValueOf(s) + d
  {
    var t := s + [('0' as int + d) as char];
    assert t[..|t| - 1] == s && t[0] == s[0];
  }

  /** A number written out is read back, and is written in digits after at most a sign. */
  lemma {:induction false} DecimalReadsBack(n: int)
    ensures Decimal(n) != "" && ValueOf(Decimal(n)) == n
    ensures if n < 0 then Decimal(n)[0] == '-' && AreDigits(Decimal(n)[1..]) else AreDigits(Decimal(n))
    decreases if n < 0 then 1 - n else n
  {
    if n < 0 {
      DecimalReadsBack(-n);
      assert ("-" + Decimal(-n))[1..] == Decimal(-n);
    } else if n < 10 {
      assert Decimal(n)[..0] == "";
    } else {
      DecimalReadsBack(n / 10);
      ValueOfMore(Decimal(n / 10), n % 10);
    }
  }

  const HOST: string := "https://www.nexmark.com"
  const QUERY: string := "item.htm?query=1"

  function Url(s1: string, s2: string, s3: string, channelId: Option<int>): string {
    HOST + "/" + s1 + "/" + s2 + "/" + s3 + "/" +
    match channelId
    case Some(id) => QUERY + "&channel_id=" + Decimal(id)
    case None => QUERY
  }

  function Seller(eventId: nat, p: Pick): int {
    (match p
     case Hot => LastBase0PersonId(eventId) / HOT_SELLER_BATCH * HOT_SELLER_BATCH
     case Cold(n) => NextBase0PersonId(eventId, n)) + FIRST_PERSON_ID
  }

  function Bidder(eventId: nat, p: Pick): int {
    (match p
     case Hot => LastBase0PersonId(eventId) / HOT_BIDDER_BATCH * HOT_BIDDER_BATCH + 1
     case Cold(n) => NextBase0PersonId(eventId, n)) + FIRST_PERSON_ID
  }

  function BidAuction(eventId: nat, p: Pick): int {
    (match p
     case Hot => LastBase0AuctionId(eventId) / HOT_AUCTION_BATCH * HOT_AUCTION_BATCH
     case Cold(n) => NextBase0AuctionId(eventId, n)) + FIRST_AUCTION_ID
  }

  function TimeOf(eventId: nat): int {
    BASE_NS + eventId * INTER_EVENT_DELAY_NS
  }

  /** The event that the draws lead to. */
  function EventAt(eventId: nat, d: Draws): NxEvent
    requires Possible(eventId, d)
  {
    var ns := TimeOf(eventId);
    match d
    case PersonDraws(city, state) =>
      Person(FIRST_PERSON_ID + eventId / TOTAL_PROPORTION, ns, city, state)
    case AuctionDraws(seller, category, initial, length, over) =>
      Auction(FIRST_AUCTION_ID + LastBase0AuctionId(eventId), ns, initial, initial + over,
              ns + (1 + length) * 1_000_000, Seller(eventId, seller), FIRST_CATEGORY_ID + category)
    case BidDraws(auction, bidder, price, channel, s1, s2, s3) =>
      var id := if channel.ColdChannel? then channel.id else None;
      Bid(BidAuction(eventId, auction), ns, price, Bidder(eventId, bidder),
          if channel.HotChannel? then channel.i else HOT_CHANNEL_MAX + channel.i, id, Url(s1, s2, s3, id))
  }

  ghost predicate CanEmit(eventId: nat, ev: NxEvent) {
    exists d :: Possible(eventId, d) && ev == EventAt(eventId, d)
  }

  /** A stream the generator can produce. */
  ghost predicate Generated(evs: seq<NxEvent>) {
    forall k :: 0 <= k < |evs| ==> CanEmit(k, evs[k])
  }

  // ---- the generator ----

  method RandomBelow(n: int) returns (r: int)
    requires 0 < n
    ensures 0 <= r < n
  {
    r :| 0 <= r < n;
  }

  method NextPrice() returns (price: int)
    ensures IsPrice(price)
  {
    var above := RandomBelow(MAX_PRICE - MIN_PRICE + 1);
    price := MIN_PRICE + above;
  }

  /** `next_string`, up to its trim. */
  method NextString(maxLen: nat, special: char) returns (s: string)
    ensures IsDrawn(s, maxLen, special)
  {
    var extra := RandomBelow(Max(SaturatingSub(maxLen, 3), 1));
    s := "";
    for i := 0 to 3 + extra
      invariant |s| == i && forall j :: 0 <= j < i ==> s[j] == special || 'a' <= s[j] <= 'z'
    {
      var other := RandomBelow(13);
      var letter := RandomBelow(26);
      s := s + [if other == 0 then special else ('a' as int + letter) as char];
    }
  }

  method NextPick(ratio: int, range: int) returns (p: Pick)
    requires 0 < ratio && 0 < range
    ensures InRange(p, range)
  {
    var hot := RandomBelow(ratio);
    if hot > 0 {
      return Hot;
    }
    var n := RandomBelow(range);
    p := Cold(n);
  }

  method NextChannel() returns (c: Channel)
    ensures ChannelOk(c)
  {
    var hot := RandomBelow(2);
    if hot > 0 {
      var i := RandomBelow(HOT_CHANNEL_MAX);
      return HotChannel(i);
    }
    var i := RandomBelow(CHANNELS_NUMBER);
    var with := RandomBelow(10);
    c := ColdChannel(i, if with > 0 then Some(ChannelId(i)) else None);
  }

  method DrawFor(eventId: nat) returns (d: Draws)
    ensures Possible(eventId, d)
  {
    var rem := eventId % TOTAL_PROPORTION;
    if rem < PERSON_PROPORTION {
      var city := RandomBelow(NUM_CITIES);
      var state := RandomBelow(NUM_STATES);
      d := PersonDraws(city, state);
    } else if rem < PERSON_PROPORTION + AUCTION_PROPORTION {
      var seller := NextPick(4, PersonRange(eventId));
      var category := RandomBelow(NUM_CATEGORIES);
      var initial := NextPrice();
      var length := RandomBelow(AuctionHorizonMs(eventId) * 2);
      var over := NextPrice();
      d := AuctionDraws(seller, category, initial, length, over);
    } else {
      var auction := NextPick(2, AuctionRange(eventId));
      var bidder := NextPick(4, PersonRange(eventId));
      var price := NextPrice();
      var channel := NextChannel();
      var s1 := NextString(5, '_');
      var s2 := NextString(5, '_');
      var s3 := NextString(5, '_');
      d := BidDraws(auction, bidder, price, channel, s1, s2, s3);
    }
  }

  /** `generate_events`, collecting what it hands to its callback. */
  method GenerateEvents(count: int) returns (evs: seq<NxEvent>)
    ensures |evs| == Max(count, 0) && Generated(evs)
  {
    evs := [];
    var eventId := 0;
    while eventId < count
      invariant eventId == |evs| && eventId <= Max(count, 0) && Generated(evs)
    {
      var d := DrawFor(eventId);
      evs := evs + [EventAt(eventId, d)];
      eventId := eventId + 1;
    }
  }

  // ---- what the events hold ----

  /** The first event stands at the start of 2026, and each second has ten thousand, evenly spaced. */
  lemma EventTimes(k: nat, ev: NxEvent)
    requires CanEmit(k, ev)
    ensures ev.ns == (56 * 365 + 14) * 86_400 * 1_000_000_000 + k * (1_000_000_000 / 10_000)
  {
  }

  lemma PersonsExactly(k: nat, city: int, state: int)
    ensures (exists ev :: CanEmit(k, ev) && ev.Person? && ev.city == city && ev.state == state) <==>
      k % 50 == 0 && 0 <= city < 10 && 0 <= state < 6
  {
    if k % 50 == 0 && 0 <= city < 10 && 0 <= state < 6 {
      var d := PersonDraws(city, state);
      assert Possible(k, d);
      assert CanEmit(k, EventAt(k, d));
    }
  }

  ghost predicate IsAuction(k: nat, ev: NxEvent, initialBid: int, reserve: int, ms: int, category: int) {
    && CanEmit(k, ev) && ev.Auction? && ev.initialBid == initialBid && ev.reserve == reserve
    && ev.expires - ev.ns == ms * 1_000_000 && ev.category == category
  }

  /** An auction is open for up to twice the horizon, and its reserve is a price above its first bid, another price. */
  lemma AuctionsExactly(k: nat, initialBid: int, reserve: int, ms: int, category: int)
    ensures (exists ev :: IsAuction(k, ev, initialBid, reserve, ms, category)) <==>
      && 1 <= k % 50 <= 3 && 100 <= initialBid <= 100_000_000 && 100 <= reserve - initialBid <= 100_000_000
      && 1 <= ms <= 2 * AuctionHorizonMs(k) && 10 <= category <= 14
  {
    if 1 <= k % 50 <= 3 && 100 <= initialBid <= 100_000_000 && 100 <= reserve - initialBid <= 100_000_000
      && 1 <= ms <= 2 * AuctionHorizonMs(k) && 10 <= category <= 14
    {
      var d := AuctionDraws(Hot, category - 10, initialBid, ms - 1, reserve - initialBid);
      assert Possible(k, d);
      assert IsAuction(k, EventAt(k, d), initialBid, reserve, ms, category);
    }
    if ev :| IsAuction(k, ev, initialBid, reserve, ms, category) {
      var d :| Possible(k, d) && ev == EventAt(k, d);
    }
  }

  ghost predicate IsBid(k: nat, ev: NxEvent, price: int, channel: int, id: Option<int>) {
    CanEmit(k, ev) && ev.Bid? && ev.price == price && ev.channel == channel && ev.channelId == id
  }

  /** A bid comes through one of four channels without an id, or one of ten thousand with its own id or none. */
  lemma BidsExactly(k: nat, price: int, channel: int, id: Option<int>)
    ensures (exists ev :: IsBid(k, ev, price, channel, id)) <==>
      && k % 50 >= 4 && 100 <= price <= 100_000_000 && 0 <= channel < 10_004
      && (id.Some? ==> channel >= 4 && id.value == ChannelId(channel - 4))
  {
    hide ChannelId;
    if k % 50 >= 4 && 100 <= price <= 100_000_000 && 0 <= channel < 10_004
      && (id.Some? ==> channel >= 4 && id.value == ChannelId(channel - 4))
    {
      var d := BidDraws(Hot, Hot, price, if channel < 4 then HotChannel(channel) else ColdChannel(channel - 4, id),
                        "abc", "abc", "abc");
      assert Possible(k, d);
      assert IsBid(k, EventAt(k, d), price, channel, id);
    }
    if ev :| IsBid(k, ev, price, channel, id) {
      var d :| Possible(k, d) && ev == EventAt(k, d);
    }
  }

  // ---- expiry ----

  /** The horizon is 166 ms, or 167 ms where the event's millisecond phase carries. */
  lemma HorizonIsExact(eventId: nat)
    ensures AuctionHorizonMs(eventId) == if eventId % 10 >= 4 then 167 else 166
  {
    assert eventId * INTER_EVENT_DELAY_NS / 1_000_000 == eventId / 10;
    assert (eventId + 1666) * INTER_EVENT_DELAY_NS / 1_000_000 == (eventId + 1666) / 10;
  }

  lemma ExpiryBounds(eventId: nat, ev: NxEvent)
    requires CanEmit(eventId, ev) && ev.Auction?
    ensures 1_000_000 <= ev.expires - ev.ns <= 334 * 1_000_000
  {
    HorizonIsExact(eventId);
  }

  // ---- emitted so far ----

  function CountPersons(evs: seq<NxEvent>): nat {
    if evs == [] then 0 else CountPersons(evs[..|evs| - 1]) + if evs[|evs| - 1].Person? then 1 else 0
  }

  function CountAuctions(evs: seq<NxEvent>): nat {
    if evs == [] then 0 else CountAuctions(evs[..|evs| - 1]) + if evs[|evs| - 1].Auction? then 1 else 0
  }

  /** The closed forms move by one exactly at an event of their kind. */
  lemma ClosedFormsStep(k: nat)
    requires 0 < k
    ensures LastBase0PersonId(k) == LastBase0PersonId(k - 1) + if k % TOTAL_PROPORTION < PERSON_PROPORTION then 1 else 0
    ensures LastBase0AuctionId(k) == LastBase0AuctionId(k - 1) +
      if PERSON_PROPORTION <= k % TOTAL_PROPORTION < PERSON_PROPORTION + AUCTION_PROPORTION then 1 else 0
  {
    var epoch, offset := (k - 1) / 50, (k - 1) % 50;
    assert k - 1 == 50 * epoch + offset;
    if offset == 49 {
      assert k / 50 == epoch + 1 && k % 50 == 0;
    } else {
      assert k / 50 == epoch && k % 50 == offset + 1;
    }
  }

  lemma KindOf(k: nat, ev: NxEvent)
    requires CanEmit(k, ev)
    ensures ev.Person? <==> k % TOTAL_PROPORTION < PERSON_PROPORTION
    ensures ev.Auction? <==> PERSON_PROPORTION <= k % TOTAL_PROPORTION < PERSON_PROPORTION + AUCTION_PROPORTION
  {
  }

  /** The closed forms are the counts: how many events of the kind there are up to and including this one, less one. */
  lemma {:induction false} LastIdsCountTheStream(evs: seq<NxEvent>, k: nat)
    requires Generated(evs) && k < |evs|
    ensures LastBase0PersonId(k) == CountPersons(evs[..k + 1]) - 1
    ensures LastBase0AuctionId(k) == CountAuctions(evs[..k + 1]) - 1
  {
    hide CanEmit;
    assert evs[..k + 1][..k] == evs[..k];
    KindOf(k, evs[k]);
    if k > 0 {
      hide LastBase0PersonId, LastBase0AuctionId;
      LastIdsCountTheStream(evs, k - 1);
      ClosedFormsStep(k);
    }
  }

  /** The ids are consecutive: the next person or auction takes the number of those already emitted. */
  lemma IdsAreConsecutive(evs: seq<NxEvent>, k: nat)
    requires Generated(evs) && k < |evs|
    ensures evs[k].Person? ==> evs[k].id == FIRST_PERSON_ID + CountPersons(evs[..k])
    ensures evs[k].Auction? ==> evs[k].id == FIRST_AUCTION_ID + CountAuctions(evs[..k])
  {
    LastIdsCountTheStream(evs, k);
    assert evs[..k + 1][..k] == evs[..k];
    assert CanEmit(k, evs[k]);
  }
}
