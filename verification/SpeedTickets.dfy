/**
 * Ticketing of the speed daemon: cameras insert observations and then scan the road's observations of
 * the same plate, many cameras at once; tickets are kept to one per plate and day.  Speeds are exact
 * rationals.  Where the program's conversion from float to uint16 is not defined, the scan may go
 * either way.
 */
module SpeedTickets {
  import opened Arith
  import opened Common

  type Camera = nat

  const DAY := 86400

  datatype Position = Position(mile: UInt16, timestamp: UInt32)

  /** An observation: where and when, and the limit of the camera that made it. */
  datatype Sighting = Sighting(plate: string, road: UInt16, at: Position, limit: UInt16)

  datatype Ticket = Ticket(plate: string, road: UInt16, first: Position, second: Position, speed: UInt16)

  // ---------- the speed test ----------

  /** Speed in miles per hour is Distance / Time. */
  function Distance(p: Position, q: Position): nat {
    Abs(p.mile - q.mile) * 3600
  }

  function Time(p: Position, q: Position): nat {
    Abs(p.timestamp - q.timestamp)
  }

  /** The whole part of the speed fits in 16 bits, so the program's arithmetic is exact. */
  predicate InRange(p: Position, q: Position) {
    Time(p, q) > 0 && Distance(p, q) / Time(p, q) < 0x1_0000
  }

  /** The program's test: compare the whole part, and the fraction with one half. */
  predicate TooFast(p: Position, q: Position, limit: UInt16)
    requires InRange(p, q)
  {
    var whole, rest := Distance(p, q) / Time(p, q), Distance(p, q) % Time(p, q);
    !(whole < limit || (whole == limit && 2 * rest < Time(p, q)))
  }

  /** Miles and seconds: under 65,536 miles per hour, and not at one moment. */
  predicate Measurable(p: Position, q: Position) {
    p.timestamp != q.timestamp && 3600 * Abs(p.mile - q.mile) < 0x1_0000 * Abs(p.timestamp - q.timestamp)
  }

  /** Miles and seconds: at least half a mile per hour over the limit, 3600 seconds to the hour. */
  predicate Exceeds(p: Position, q: Position, limit: UInt16) {
    7200 * Abs(p.mile - q.mile) >= (2 * limit + 1) * Abs(p.timestamp - q.timestamp)
  }

  /** Miles and seconds: this many whole hundredths of a mile per hour. */
  predicate Hundredths(p: Position, q: Position, speed: nat) {
    var miles, seconds := Abs(p.mile - q.mile), Abs(p.timestamp - q.timestamp);
    speed * seconds <= 360_000 * miles < (speed + 1) * seconds
  }

  lemma QuotientIff(x: nat, t: nat, n: nat)
    requires t > 0
    ensures x / t * t <= x < (x / t + 1) * t
    ensures x / t < n <==> x < n * t
    ensures n * t <= x < (n + 1) * t ==> x / t == n
  {
    var whole := x / t;
    assert x == whole * t + x % t && (whole + 1) * t == whole * t + t && (n + 1) * t == n * t + t;
    if whole < n {
      MulMono(whole + 1, n, t);
    } else {
      MulMono(n, whole, t);
      if n < whole {
        MulMono(n + 1, whole, t);
      }
    }
  }

  /** Exactly there the program's arithmetic is exact. */
  lemma InRangeIff(p: Position, q: Position)
    ensures InRange(p, q) <==> Measurable(p, q)
  {
    if p.timestamp != q.timestamp {
      QuotientIff(Distance(p, q), Time(p, q), 0x1_0000);
    }
  }

  /** A ticket is due exactly when the speed is at least half a mile per hour over the limit. */
  lemma TooFastIff(p: Position, q: Position, limit: UInt16)
    requires InRange(p, q)
    ensures TooFast(p, q, limit) <==> Exceeds(p, q, limit)
  {
    var d, t := Distance(p, q), Time(p, q);
    var whole, rest := d / t, d % t;
    assert d == whole * t + rest;
    HalfOver(whole, rest, t, limit);
    assert 2 * d == 7200 * Abs(p.mile - q.mile);
  }

  lemma HalfOver(whole: nat, rest: nat, t: nat, limit: nat)
    requires rest < t
    ensures !(whole < limit || (whole == limit && 2 * rest < t)) <==> 2 * (whole * t + rest) >= (2 * limit + 1) * t
  {
    assert (2 * limit + 1) * t == 2 * (limit * t) + t;
    assert (whole + 1) * t == whole * t + t && (limit + 1) * t == limit * t + t;
    if whole < limit {
      MulMono(whole + 1, limit, t);
    } else if whole > limit {
      MulMono(limit + 1, whole, t);
    }
  }

  /** The speed printed on a ticket, in hundredths, where it fits in 16 bits. */
  predicate SpeedOk(p: Position, q: Position, speed: UInt16) {
    Time(p, q) > 0 && Distance(p, q) * 100 / Time(p, q) < 0x1_0000 ==> speed == Distance(p, q) * 100 / Time(p, q)
  }

  /** The printed speed is that of the two positions, wherever it is below 656 miles per hour. */
  lemma SpeedOkIff(p: Position, q: Position, speed: UInt16)
    ensures SpeedOk(p, q, speed) <==>
      (p.timestamp != q.timestamp && 360_000 * Abs(p.mile - q.mile) < 0x1_0000 * Abs(p.timestamp - q.timestamp) ==>
         Hundredths(p, q, speed))
  {
    if p.timestamp != q.timestamp {
      QuotientIff(Distance(p, q) * 100, Time(p, q), 0x1_0000);
      QuotientIff(Distance(p, q) * 100, Time(p, q), speed);
    }
  }

  lemma EitherWay(p: Position, q: Position, limit: UInt16, speed: nat)
    ensures Abs(p.mile - q.mile) == Abs(q.mile - p.mile)
    ensures Abs(p.timestamp - q.timestamp) == Abs(q.timestamp - p.timestamp)
    ensures Measurable(p, q) == Measurable(q, p) && Exceeds(p, q, limit) == Exceeds(q, p, limit)
    ensures Hundredths(p, q, speed) == Hundredths(q, p, speed)
  {
  }

  // ---------- tickets and days ----------

  function Day(p: Position): nat {
    p.timestamp / DAY
  }

  function DayRange(lo: nat, hi: nat): (r: set<nat>)
    ensures forall d :: d in r <==> lo <= d <= hi
    decreases hi - lo
  {
    if lo > hi then {} else {lo} + DayRange(lo + 1, hi)
  }

  function DaysOf(t: Ticket): set<nat> {
    DayRange(Day(t.first), Day(t.second))
  }

  /** In seconds: some of day d, which has 86,400 seconds, lies between the two positions or at one of them. */
  predicate Spans(p: Position, q: Position, d: nat) {
    && (p.timestamp < 86_400 * (d + 1) || q.timestamp < 86_400 * (d + 1))
    && (86_400 * d <= p.timestamp || 86_400 * d <= q.timestamp)
  }

  lemma {:induction false} DayIff(p: Position, d: nat)
    ensures Day(p) <= d <==> p.timestamp < 86_400 * (d + 1)
    ensures d <= Day(p) <==> 86_400 * d <= p.timestamp
  {
  }

  /** The days of a pair are the days that the time between its positions touches. */
  lemma PairDaysIff(p: Position, q: Position, d: nat)
    ensures d in PairDays(p, q) <==> Spans(p, q, d)
  {
    DayIff(p, d);
    DayIff(q, d);
  }

  lemma DaysOfIff(t: Ticket, d: nat)
    requires t.first.timestamp <= t.second.timestamp
    ensures d in DaysOf(t) <==> Spans(t.first, t.second, d)
  {
    PairDaysIff(t.first, t.second, d);
  }

  function Ticketed(days: map<string, set<nat>>, plate: string): set<nat> {
    if plate in days then days[plate] else {}
  }

  /** What SendTicket maintains: the days taken per plate, and the tickets sent, in order. */
  datatype Sent = Sent(days: map<string, set<nat>>, tickets: seq<Ticket>)

  /** Nothing is sent if any day of the ticket is taken; else all its days are taken and it is sent. */
  function SendTicket(s: Sent, t: Ticket): Sent {
    var taken := Ticketed(s.days, t.plate);
    if DaysOf(t) !! taken then Sent(s.days[t.plate := taken + DaysOf(t)], s.tickets + [t])
    else Sent(s.days[t.plate := taken], s.tickets)
  }

  /** The earlier position first; the camera's own position when the times are equal. */
  function TicketFor(me: Sighting, p: Position, speed: UInt16): Ticket {
    if me.at.timestamp > p.timestamp then Ticket(me.plate, me.road, p, me.at, speed)
    else Ticket(me.plate, me.road, me.at, p, speed)
  }

  // ---------- the server ----------

  /** Where a camera's goroutine stands in ProcessPlate, for the insertion with that number. */
  datatype Phase =
    | Idle
    | Inserted(k: nat)                               // inserted, scan to come
    | Scanning(k: nat, todo: seq<Position>)          // holding the read lock

  type Database = map<(string, UInt16), seq<Position>>

  datatype State = State(
    log: seq<Sighting>,                              // every insertion, in order
    positions: Database,                             // DatabaseLogs
    out: Sent,
    phases: map<Camera, Phase>,
    began: map<nat, nat>)                            // history: how many insertions each one's scan covers

  const INIT := State([], map[], Sent(map[], []), map[], map[])

  datatype Step =
    | Insert(cam: Camera, me: Sighting, order: seq<Position>)
    | ScanBegin(cam: Camera)
    | ScanOne(cam: Camera, ticketed: bool, speed: UInt16)
    | ScanEnd(cam: Camera)

  function Seen(positions: Database, plate: string, road: UInt16): seq<Position> {
    if (plate, road) in positions then positions[(plate, road)] else []
  }

  predicate Scans(s: State, cam: Camera) {
    cam in s.phases && s.phases[cam].Scanning? && s.phases[cam].k < |s.log|
  }

  /** Whether the scan sends a ticket for this pair: forced where the arithmetic is exact. */
  predicate Decides(me: Sighting, p: Position, ticketed: bool) {
    InRange(p, me.at) ==> ticketed == TooFast(p, me.at, me.limit)
  }

  ghost predicate Enabled(s: State, step: Step) {
    match step
    case Insert(cam, me, order) =>
      // the write lock excludes every scan; the comparator is no total order, so any order may come out
      && (cam in s.phases ==> s.phases[cam].Idle?)
      && (forall c :: c in s.phases ==> !s.phases[c].Scanning?)
      && multiset(order) == multiset(Seen(s.positions, me.plate, me.road) + [me.at])
    case ScanBegin(cam) => cam in s.phases && s.phases[cam].Inserted? && s.phases[cam].k < |s.log|
    case ScanOne(cam, ticketed, speed) =>
      && Scans(s, cam) && s.phases[cam].todo != []
      && var me, p := s.log[s.phases[cam].k], s.phases[cam].todo[0];
         Decides(me, p, ticketed) && SpeedOk(p, me.at, speed)
    case ScanEnd(cam) => Scans(s, cam) && s.phases[cam].todo == []
  }

  ghost function Apply(s: State, step: Step): State
    requires Enabled(s, step)
  {
    match step
    case Insert(cam, me, order) =>
      s.(log := s.log + [me], positions := s.positions[(me.plate, me.road) := order],
         phases := s.phases[cam := Inserted(|s.log|)])
    case ScanBegin(cam) =>
      var k := s.phases[cam].k;
      s.(phases := s.phases[cam := Scanning(k, Seen(s.positions, s.log[k].plate, s.log[k].road))],
         began := s.began[k := |s.log|])
    case ScanOne(cam, ticketed, speed) =>
      var Scanning(k, todo) := s.phases[cam];
      s.(phases := s.phases[cam := Scanning(k, todo[1..])],
         out := if todo[0] != s.log[k].at && ticketed
                then SendTicket(s.out, TicketFor(s.log[k], todo[0], speed)) else s.out)
    case ScanEnd(cam) => s.(phases := s.phases[cam := Idle])
  }

  // ---------- what tickets keep ----------

  /** The days taken for a plate are those of its tickets, and no two of its tickets share a day. */
  ghost predicate DaysOk(s: Sent) {
    && (forall plate, d :: d in Ticketed(s.days, plate) ==> TicketOn(s.tickets, plate, d))
    && (forall i, d :: 0 <= i < |s.tickets| && d in DaysOf(s.tickets[i]) ==> d in Ticketed(s.days, s.tickets[i].plate))
    && (forall i, j :: 0 <= i < j < |s.tickets| && s.tickets[i].plate == s.tickets[j].plate ==>
          DaysOf(s.tickets[i]) !! DaysOf(s.tickets[j]))
  }

  ghost predicate TicketOn(tickets: seq<Ticket>, plate: string, d: nat) {
    exists i :: 0 <= i < |tickets| && tickets[i].plate == plate && d in DaysOf(tickets[i])
  }

  lemma TicketOnGrows(tickets: seq<Ticket>, t: Ticket, plate: string, d: nat)
    ensures TicketOn(tickets + [t], plate, d) <==> TicketOn(tickets, plate, d) || (t.plate == plate && d in DaysOf(t))
  {
    var all, n := tickets + [t], |tickets|;
    if TicketOn(tickets, plate, d) {
      var i :| 0 <= i < n && tickets[i].plate == plate && d in DaysOf(tickets[i]);
      assert all[i] == tickets[i];
    }
    assert all[n] == t;
  }

  lemma DisjointGrows(s: Sent, t: Ticket)
    requires DaysOk(s) && DaysOf(t) !! Ticketed(s.days, t.plate)
    ensures forall i :: 0 <= i < |s.tickets| && s.tickets[i].plate == t.plate ==> DaysOf(s.tickets[i]) !! DaysOf(t)
  {
    forall i | 0 <= i < |s.tickets| && s.tickets[i].plate == t.plate ensures DaysOf(s.tickets[i]) !! DaysOf(t) {
      assert DaysOf(s.tickets[i]) <= Ticketed(s.days, t.plate);
    }
  }

  lemma NewTicketKeepsDays(s: Sent, t: Ticket)
    requires DaysOk(s) && DaysOf(t) !! Ticketed(s.days, t.plate)
    ensures DaysOk(SendTicket(s, t))
  {
    var s' := SendTicket(s, t);
    DisjointGrows(s, t);
    forall plate, d | d in Ticketed(s'.days, plate) ensures TicketOn(s'.tickets, plate, d) {
      TicketOnGrows(s.tickets, t, plate, d);
    }
  }

  lemma SameDays(days: map<string, set<nat>>, plate: string, other: string)
    ensures Ticketed(days[plate := Ticketed(days, plate)], other) == Ticketed(days, other)
  {
  }

  lemma NoTicketKeepsDays(s: Sent, plate: string)
    requires DaysOk(s)
    ensures DaysOk(Sent(s.days[plate := Ticketed(s.days, plate)], s.tickets))
  {
    var s' := Sent(s.days[plate := Ticketed(s.days, plate)], s.tickets);
    forall other ensures Ticketed(s'.days, other) == Ticketed(s.days, other) {
      SameDays(s.days, plate, other);
    }
    SameDaysKeep(s, s');
  }

  /** Sending a ticket keeps that. */
  lemma SendKeepsDays(s: Sent, t: Ticket)
    requires DaysOk(s)
    ensures DaysOk(SendTicket(s, t))
  {
    if DaysOf(t) !! Ticketed(s.days, t.plate) {
      NewTicketKeepsDays(s, t);
    } else {
      NoTicketKeepsDays(s, t.plate);
    }
  }

  /** Sent or not, afterwards at least one day of the ticket is taken. */
  lemma SendTakesDay(s: Sent, t: Ticket)
    requires t.first.timestamp <= t.second.timestamp
    ensures exists d :: d in DaysOf(t) && d in Ticketed(SendTicket(s, t).days, t.plate)
  {
    if DaysOf(t) !! Ticketed(s.days, t.plate) {
      assert Day(t.first) in DaysOf(t) && Day(t.first) in Ticketed(SendTicket(s, t).days, t.plate);
    } else {
      var d :| d in DaysOf(t) && d in Ticketed(s.days, t.plate);
      assert d in Ticketed(SendTicket(s, t).days, t.plate);
    }
  }

  lemma SameDaysKeep(s: Sent, s': Sent)
    requires DaysOk(s) && s'.tickets == s.tickets
    requires forall plate :: Ticketed(s'.days, plate) == Ticketed(s.days, plate)
    ensures DaysOk(s')
  {
  }

  // ---------- the invariant ----------

  /** The database holds exactly the positions inserted for each plate and road. */
  ghost predicate Recorded(s: State, plate: string, road: UInt16, p: Position) {
    p in Seen(s.positions, plate, road) <==>
      exists i :: 0 <= i < |s.log| && s.log[i] == Sighting(plate, road, p, s.log[i].limit)
  }

  /** A ticket joins two recorded positions of its plate and road, in order of time, and is deserved. */
  ghost predicate Honest(s: State, t: Ticket) {
    && t.first in Seen(s.positions, t.plate, t.road) && t.second in Seen(s.positions, t.plate, t.road)
    && t.first.timestamp <= t.second.timestamp
    && Printed(t)
    && exists k :: 0 <= k < |s.log| && Deserved(s.log[k], t)
  }

  /** This sighting is one end of the ticket, too fast for its camera where the arithmetic is exact. */
  predicate Deserved(me: Sighting, t: Ticket) {
    && me.plate == t.plate && me.road == t.road && (me.at == t.first || me.at == t.second)
    && (Measurable(t.first, t.second) ==> Exceeds(t.first, t.second, me.limit))
  }

  /** The speed on the ticket is that of its two positions, where it fits in 16 bits. */
  predicate Printed(t: Ticket) {
    var miles, seconds := Abs(t.first.mile - t.second.mile), Abs(t.first.timestamp - t.second.timestamp);
    seconds != 0 && 360_000 * miles < 0x1_0000 * seconds ==> Hundredths(t.first, t.second, t.speed)
  }

  /** A scan in progress is for a known insertion and has only recorded positions before it. */
  ghost predicate PhaseOk(s: State, cam: Camera) {
    cam in s.phases ==>
      match s.phases[cam]
      case Idle => true
      case Inserted(k) => k < |s.log|
      case Scanning(k, todo) =>
        k < |s.log| && forall p :: p in todo ==> p in Seen(s.positions, s.log[k].plate, s.log[k].road)
  }

  /** Sighting j has yet to be compared with position p. */
  ghost predicate Pending(s: State, j: nat, p: Position) {
    exists cam :: cam in s.phases && Awaits(s.phases[cam], j, p)
  }

  predicate Awaits(ph: Phase, j: nat, p: Position) {
    match ph
    case Idle => false
    case Inserted(k) => k == j
    case Scanning(k, todo) => k == j && p in todo
  }

  /** The scan of sighting j is sure to meet sighting i: i was inserted first, or at least before that scan began. */
  predicate Meets(s: State, i: nat, j: nat) {
    i < j || (j in s.began && i < s.began[j])
  }

  /** Two sightings of one plate on one road, too fast for the camera of the second. */
  ghost predicate OverLimit(s: State, i: nat, j: nat)
    requires i < |s.log| && j < |s.log|
  {
    && s.log[i].plate == s.log[j].plate && s.log[i].road == s.log[j].road && s.log[i].at != s.log[j].at
    && Measurable(s.log[i].at, s.log[j].at) && Exceeds(s.log[i].at, s.log[j].at, s.log[j].limit)
  }

  function PairDays(p: Position, q: Position): set<nat> {
    if p.timestamp <= q.timestamp then DayRange(Day(p), Day(q)) else DayRange(Day(q), Day(p))
  }

  ghost predicate Covered(s: State, plate: string, p: Position, q: Position) {
    exists d :: d in PairDays(p, q) && d in Ticketed(s.out.days, plate)
  }

  ghost predicate PairOk(s: State, i: nat, j: nat) {
    i < |s.log| && j < |s.log| && Meets(s, i, j) && OverLimit(s, i, j) ==>
      Pending(s, j, s.log[i].at) || Covered(s, s.log[j].plate, s.log[i].at, s.log[j].at)
  }

  ghost predicate Inv(s: State) {
    && DaysOk(s.out)
    && (forall plate, road, p :: Recorded(s, plate, road, p))
    && (forall n :: 0 <= n < |s.out.tickets| ==> Honest(s, s.out.tickets[n]))
    && (forall cam :: PhaseOk(s, cam))
    && (forall i: nat, j: nat :: PairOk(s, i, j))
    && (forall k :: k in s.began ==> s.began[k] <= |s.log|)
  }

  lemma InOrder(order: seq<Position>, before: seq<Position>, x: Position, p: Position)
    requires multiset(order) == multiset(before + [x])
    ensures p in order <==> p in before || p == x
  {
    assert p in order <==> p in multiset(order);
    assert p in before + [x] <==> p in multiset(before + [x]);
  }

  /** An insertion adds one position, of its own plate and road. */
  lemma InsertSeen(s: State, cam: Camera, me: Sighting, order: seq<Position>, plate: string, road: UInt16, p: Position)
    requires Enabled(s, Insert(cam, me, order))
    ensures var s' := Apply(s, Insert(cam, me, order));
      p in Seen(s'.positions, plate, road) <==>
        p in Seen(s.positions, plate, road) || (plate == me.plate && road == me.road && p == me.at)
  {
    if plate == me.plate && road == me.road {
      InOrder(order, Seen(s.positions, plate, road), me.at, p);
    }
  }

  lemma InsertRecorded(s: State, cam: Camera, me: Sighting, order: seq<Position>, plate: string, road: UInt16,
                       p: Position)
    requires Enabled(s, Insert(cam, me, order)) && Recorded(s, plate, road, p)
    ensures Recorded(Apply(s, Insert(cam, me, order)), plate, road, p)
  {
    var s' := Apply(s, Insert(cam, me, order));
    InsertSeen(s, cam, me, order, plate, road, p);
    if p in Seen(s.positions, plate, road) {
      var i :| 0 <= i < |s.log| && s.log[i] == Sighting(plate, road, p, s.log[i].limit);
      assert s'.log[i] == s.log[i];
    }
    assert s'.log[|s.log|] == me;
  }

  lemma InsertKeeps(s: State, cam: Camera, me: Sighting, order: seq<Position>)
    requires Inv(s) && Enabled(s, Insert(cam, me, order))
    ensures Inv(Apply(s, Insert(cam, me, order)))
  {
    var s' := Apply(s, Insert(cam, me, order));
    forall plate, road, p ensures Recorded(s', plate, road, p) {
      assert Recorded(s, plate, road, p);
      InsertRecorded(s, cam, me, order, plate, road, p);
    }
    forall n | 0 <= n < |s'.out.tickets| ensures Honest(s', s'.out.tickets[n]) {
      var t := s.out.tickets[n];
      assert Honest(s, t);
      var k :| 0 <= k < |s.log| && Deserved(s.log[k], t);
      assert s'.log[k] == s.log[k];
      InsertSeen(s, cam, me, order, t.plate, t.road, t.first);
      InsertSeen(s, cam, me, order, t.plate, t.road, t.second);
    }
    forall c ensures PhaseOk(s', c) {
      assert PhaseOk(s, c);
    }
    forall i: nat, j: nat ensures PairOk(s', i, j) {
      assert PairOk(s, i, j);
      InsertPair(s, cam, me, order, i, j);
    }
  }

  lemma InsertPair(s: State, cam: Camera, me: Sighting, order: seq<Position>, i: nat, j: nat)
    requires Enabled(s, Insert(cam, me, order)) && PairOk(s, i, j) && (j in s.began ==> s.began[j] <= |s.log|)
    ensures PairOk(Apply(s, Insert(cam, me, order)), i, j)
  {
    var s' := Apply(s, Insert(cam, me, order));
    if i < |s'.log| && j < |s'.log| && Meets(s', i, j) && OverLimit(s', i, j) {
      if j == |s.log| {
        assert Awaits(s'.phases[cam], j, s'.log[i].at);
      } else if Pending(s, j, s.log[i].at) {
        var c :| c in s.phases && Awaits(s.phases[c], j, s.log[i].at);
        assert c in s'.phases && Awaits(s'.phases[c], j, s'.log[i].at);
      }
    }
  }

  lemma ScanBeginKeeps(s: State, cam: Camera)
    requires Inv(s) && Enabled(s, ScanBegin(cam))
    ensures Inv(Apply(s, ScanBegin(cam)))
  {
    var s' := Apply(s, ScanBegin(cam));
    forall plate, road, p ensures Recorded(s', plate, road, p) {
      assert Recorded(s, plate, road, p);
    }
    forall n | 0 <= n < |s'.out.tickets| ensures Honest(s', s'.out.tickets[n]) {
      assert Honest(s, s.out.tickets[n]);
    }
    forall c ensures PhaseOk(s', c) {
      assert PhaseOk(s, c);
    }
    forall i: nat, j: nat ensures PairOk(s', i, j) {
      assert PairOk(s, i, j);
      if i < |s.log| && j < |s.log| && OverLimit(s, i, j) {
        assert Recorded(s, s.log[i].plate, s.log[i].road, s.log[i].at);
        ScanBeginPair(s, cam, i, j);
      }
    }
  }

  lemma ScanBeginPair(s: State, cam: Camera, i: nat, j: nat)
    requires Enabled(s, ScanBegin(cam)) && PairOk(s, i, j) && i < |s.log| && j < |s.log| && OverLimit(s, i, j)
    requires Recorded(s, s.log[i].plate, s.log[i].road, s.log[i].at)
    ensures PairOk(Apply(s, ScanBegin(cam)), i, j)
  {
    var s' := Apply(s, ScanBegin(cam));
    var p := s.log[i].at;
    assert s.log[i] == Sighting(s.log[i].plate, s.log[i].road, p, s.log[i].limit);
    if j == s.phases[cam].k {
      assert Awaits(s'.phases[cam], j, p);
    } else if Pending(s, j, p) {
      var c :| c in s.phases && Awaits(s.phases[c], j, p);
      assert c in s'.phases && Awaits(s'.phases[c], j, p);
    }
  }

  lemma ScanEndKeeps(s: State, cam: Camera)
    requires Inv(s) && Enabled(s, ScanEnd(cam))
    ensures Inv(Apply(s, ScanEnd(cam)))
  {
    var s' := Apply(s, ScanEnd(cam));
    forall plate, road, p ensures Recorded(s', plate, road, p) {
      assert Recorded(s, plate, road, p);
    }
    forall n | 0 <= n < |s'.out.tickets| ensures Honest(s', s'.out.tickets[n]) {
      assert Honest(s, s.out.tickets[n]);
    }
    forall c ensures PhaseOk(s', c) {
      assert PhaseOk(s, c);
    }
    forall i: nat, j: nat ensures PairOk(s', i, j) {
      assert PairOk(s, i, j);
      if i < |s.log| && j < |s.log| && OverLimit(s, i, j) && Pending(s, j, s.log[i].at) {
        var c :| c in s.phases && Awaits(s.phases[c], j, s.log[i].at);
        assert c in s'.phases && Awaits(s'.phases[c], j, s.log[i].at);
      }
    }
  }

  /** The days of a ticket are the days of its pair. */
  lemma TicketDays(me: Sighting, p: Position, speed: UInt16)
    ensures var t := TicketFor(me, p, speed);
      t.first.timestamp <= t.second.timestamp && DaysOf(t) == PairDays(p, me.at) && t.plate == me.plate
  {
  }

  lemma ScanOnePair(s: State, cam: Camera, ticketed: bool, speed: UInt16, i: nat, j: nat)
    requires Enabled(s, ScanOne(cam, ticketed, speed)) && PairOk(s, i, j)
    ensures PairOk(Apply(s, ScanOne(cam, ticketed, speed)), i, j)
  {
    var s' := Apply(s, ScanOne(cam, ticketed, speed));
    var Scanning(k, todo) := s.phases[cam];
    var me := s.log[k];
    TicketDays(me, todo[0], speed);
    if i < |s.log| && j < |s.log| && Meets(s, i, j) && OverLimit(s, i, j) {
      var p := s.log[i].at;
      if Covered(s, s.log[j].plate, p, s.log[j].at) {
        var d :| d in PairDays(p, s.log[j].at) && d in Ticketed(s.out.days, s.log[j].plate);
        assert d in Ticketed(s'.out.days, s.log[j].plate);
      } else {
        var c :| c in s.phases && Awaits(s.phases[c], j, p);
        if c == cam && p == todo[0] {
          InRangeIff(p, me.at);
          TooFastIff(p, me.at, me.limit);
          SendTakesDay(s.out, TicketFor(me, p, speed));
          assert s'.out == SendTicket(s.out, TicketFor(me, p, speed));
        } else {
          assert c in s'.phases && Awaits(s'.phases[c], j, p);
        }
      }
    }
  }

  lemma TicketDeserved(me: Sighting, p: Position, speed: UInt16)
    requires Decides(me, p, true) && SpeedOk(p, me.at, speed)
    ensures var t := TicketFor(me, p, speed); Deserved(me, t) && Printed(t)
  {
    InRangeIff(p, me.at);
    if InRange(p, me.at) {
      TooFastIff(p, me.at, me.limit);
    }
    SpeedOkIff(p, me.at, speed);
    EitherWay(p, me.at, me.limit, speed);
  }

  /** The tickets after one comparison: those before, and perhaps one that is deserved. */
  lemma ScanOneTickets(s: State, cam: Camera, ticketed: bool, speed: UInt16)
    requires Inv(s) && Enabled(s, ScanOne(cam, ticketed, speed))
    ensures var s' := Apply(s, ScanOne(cam, ticketed, speed));
      DaysOk(s'.out) && forall n :: 0 <= n < |s'.out.tickets| ==> Honest(s', s'.out.tickets[n])
  {
    var s' := Apply(s, ScanOne(cam, ticketed, speed));
    var k, p := s.phases[cam].k, s.phases[cam].todo[0];
    var me := s.log[k];
    var t := TicketFor(me, p, speed);
    assert p in s.phases[cam].todo;
    assert PhaseOk(s, cam) && Recorded(s, me.plate, me.road, me.at);
    assert me == Sighting(me.plate, me.road, me.at, me.limit);
    if ticketed {
      TicketDays(me, p, speed);
      TicketDeserved(me, p, speed);
      SendKeepsDays(s.out, t);
      assert Honest(s, t);
    }
    forall n | 0 <= n < |s'.out.tickets| ensures Honest(s', s'.out.tickets[n]) {
      assert n < |s.out.tickets| ==> Honest(s, s.out.tickets[n]);
    }
  }

  lemma ScanOneKeeps(s: State, cam: Camera, ticketed: bool, speed: UInt16)
    requires Inv(s) && Enabled(s, ScanOne(cam, ticketed, speed))
    ensures Inv(Apply(s, ScanOne(cam, ticketed, speed)))
  {
    var s' := Apply(s, ScanOne(cam, ticketed, speed));
    ScanOneTickets(s, cam, ticketed, speed);
    forall plate, road, p ensures Recorded(s', plate, road, p) {
      assert Recorded(s, plate, road, p);
    }
    forall c ensures PhaseOk(s', c) {
      assert PhaseOk(s, c);
    }
    forall i: nat, j: nat ensures PairOk(s', i, j) {
      assert PairOk(s, i, j);
      ScanOnePair(s, cam, ticketed, speed, i, j);
    }
  }

  // ---------- whole runs ----------

  ghost predicate Legal(s: State, steps: seq<Step>)
    decreases |steps|
  {
    steps == [] || (Enabled(s, steps[0]) && Legal(Apply(s, steps[0]), steps[1..]))
  }

  ghost function Run(s: State, steps: seq<Step>): State
    requires Legal(s, steps)
    decreases |steps|
  {
    if steps == [] then s else Run(Apply(s, steps[0]), steps[1..])
  }

  lemma {:induction false} RunKeeps(s: State, steps: seq<Step>)
    requires Inv(s) && Legal(s, steps)
    ensures Inv(Run(s, steps))
    decreases |steps|
  {
    if steps != [] {
      match steps[0] {
        case Insert(cam, me, order) => InsertKeeps(s, cam, me, order);
        case ScanBegin(cam) => ScanBeginKeeps(s, cam);
        case ScanOne(cam, ticketed, speed) => ScanOneKeeps(s, cam, ticketed, speed);
        case ScanEnd(cam) => ScanEndKeeps(s, cam);
      }
      RunKeeps(Apply(s, steps[0]), steps[1..]);
    }
  }

  lemma InitInv()
    ensures Inv(INIT)
  {
  }

  /** Over any run, two tickets for the same plate never share a day. */
  lemma OneTicketPerDay(steps: seq<Step>, i: nat, j: nat, d: nat)
    requires Legal(INIT, steps) && i < j < |Run(INIT, steps).out.tickets|
    requires Run(INIT, steps).out.tickets[i].plate == Run(INIT, steps).out.tickets[j].plate
    ensures var t, u := Run(INIT, steps).out.tickets[i], Run(INIT, steps).out.tickets[j];
      !(Spans(t.first, t.second, d) && Spans(u.first, u.second, d))
  {
    InitInv();
    RunKeeps(INIT, steps);
    var s := Run(INIT, steps);
    assert Honest(s, s.out.tickets[i]) && Honest(s, s.out.tickets[j]);
    DaysOfIff(s.out.tickets[i], d);
    DaysOfIff(s.out.tickets[j], d);
  }

  /** Every ticket joins two sightings of its plate on its road, earlier first, at a ticketable speed. */
  lemma TicketsAreDeserved(steps: seq<Step>, n: nat)
    requires Legal(INIT, steps) && n < |Run(INIT, steps).out.tickets|
    ensures var s := Run(INIT, steps);
      var t := s.out.tickets[n];
      && t.first.timestamp <= t.second.timestamp && Printed(t)
      && (exists i :: 0 <= i < |s.log| && s.log[i] == Sighting(t.plate, t.road, t.first, s.log[i].limit))
      && (exists i :: 0 <= i < |s.log| && s.log[i] == Sighting(t.plate, t.road, t.second, s.log[i].limit))
      && (exists k :: 0 <= k < |s.log| && Deserved(s.log[k], t))
  {
    InitInv();
    RunKeeps(INIT, steps);
    var s := Run(INIT, steps);
    var t := s.out.tickets[n];
    assert Honest(s, t);
    assert Recorded(s, t.plate, t.road, t.first) && Recorded(s, t.plate, t.road, t.second);
  }

  /** A ticket of the plate of both sightings shares a day with them. */
  ghost predicate TicketedPair(s: State, i: nat, j: nat)
    requires i < |s.log| && j < |s.log|
  {
    exists n, d: nat :: 0 <= n < |s.out.tickets| && s.out.tickets[n].plate == s.log[j].plate
      && Spans(s.out.tickets[n].first, s.out.tickets[n].second, d) && Spans(s.log[i].at, s.log[j].at, d)
  }

  /**
   * Once no scan is outstanding, every pair of sightings that is too fast for the camera of one of them
   * shares a day with a ticket sent for that plate, however the cameras interleaved, if the scan of
   * that one began after the other was inserted; for the one inserted last it always did.
   */
  lemma {:induction false} SpeedersAreTicketed(steps: seq<Step>, i: nat, j: nat)
    requires Legal(INIT, steps) && forall cam :: cam in Run(INIT, steps).phases ==> Run(INIT, steps).phases[cam].Idle?
    requires i < |Run(INIT, steps).log| && j < |Run(INIT, steps).log|
    requires Meets(Run(INIT, steps), i, j) && OverLimit(Run(INIT, steps), i, j)
    ensures TicketedPair(Run(INIT, steps), i, j)
  {
    InitInv();
    RunKeeps(INIT, steps);
    var s := Run(INIT, steps);
    assert PairOk(s, i, j);
    assert !Pending(s, j, s.log[i].at);
    var d :| d in PairDays(s.log[i].at, s.log[j].at) && d in Ticketed(s.out.days, s.log[j].plate);
    assert TicketOn(s.out.tickets, s.log[j].plate, d);
    var n :| 0 <= n < |s.out.tickets| && s.out.tickets[n].plate == s.log[j].plate && d in DaysOf(s.out.tickets[n]);
    assert Honest(s, s.out.tickets[n]);
    DaysOfIff(s.out.tickets[n], d);
    PairDaysIff(s.log[i].at, s.log[j].at, d);
  }

  lemma PairSwaps(s: State, i: nat, j: nat)
    requires i < |s.log| && j < |s.log| && OverLimit(s, i, j) && s.log[i].limit == s.log[j].limit
    ensures OverLimit(s, j, i) && (TicketedPair(s, j, i) ==> TicketedPair(s, i, j))
  {
    if TicketedPair(s, j, i) {
      var n, d: nat :| 0 <= n < |s.out.tickets| && s.out.tickets[n].plate == s.log[i].plate
        && Spans(s.out.tickets[n].first, s.out.tickets[n].second, d) && Spans(s.log[j].at, s.log[i].at, d);
      assert Spans(s.log[i].at, s.log[j].at, d);
    }
  }

  /** Where both cameras have the same limit, no pair over it escapes. */
  lemma {:induction false} SameLimitIsEnforced(steps: seq<Step>, i: nat, j: nat)
    requires Legal(INIT, steps) && forall cam :: cam in Run(INIT, steps).phases ==> Run(INIT, steps).phases[cam].Idle?
    requires i < |Run(INIT, steps).log| && j < |Run(INIT, steps).log|
    requires Run(INIT, steps).log[i].limit == Run(INIT, steps).log[j].limit && OverLimit(Run(INIT, steps), i, j)
    ensures TicketedPair(Run(INIT, steps), i, j)
  {
    if i < j {
      SpeedersAreTicketed(steps, i, j);
    } else {
      PairSwaps(Run(INIT, steps), i, j);
      SpeedersAreTicketed(steps, j, i);
    }
  }

  // ---------- the server object ----------

  type Channels = map<UInt16, seq<Ticket>>

  function Queue(chans: Channels, road: UInt16): seq<Ticket> {
    if road in chans then chans[road] else []
  }

  /** The tickets of one road, in order. */
  function OnRoad(tickets: seq<Ticket>, road: UInt16): seq<Ticket> {
    if tickets == [] then []
    else
      var rest, last := tickets[..|tickets| - 1], tickets[|tickets| - 1];
      OnRoad(rest, road) + if last.road == road then [last] else []
  }

  /** Each dispatcher channel holds exactly the tickets sent for its road, in the order they were sent. */
  ghost predicate Routed(chans: Channels, tickets: seq<Ticket>) {
    forall road :: Queue(chans, road) == OnRoad(tickets, road)
  }

  lemma RouteOne(chans: Channels, tickets: seq<Ticket>, t: Ticket)
    requires Routed(chans, tickets)
    ensures Routed(chans[t.road := Queue(chans, t.road) + [t]], tickets + [t])
  {
    var all := tickets + [t];
    assert all[..|all| - 1] == tickets;
    forall road ensures Queue(chans[t.road := Queue(chans, t.road) + [t]], road) == OnRoad(all, road) {
      assert Queue(chans, road) == OnRoad(tickets, road);
    }
  }

  class TicketServer {
    var databaseLogs: Database
    var ticketSent: map<string, set<nat>>
    var dispatcherChan: Channels
    ghost var dispatched: seq<Ticket>     // every ticket sent, on whatever road

    ghost predicate Valid()
      reads this`dispatcherChan, this`dispatched
    {
      Routed(dispatcherChan, dispatched)
    }

    ghost function Out(): Sent
      reads this
    {
      Sent(ticketSent, dispatched)
    }

    constructor ()
      ensures Valid() && databaseLogs == map[] && Out() == Sent(map[], [])
    {
      databaseLogs, ticketSent, dispatcherChan, dispatched := map[], map[], map[], [];
    }

    /** The channel of the road, made if there is none, and the ticket into it. */
    method Dispatch(t: Ticket)
      requires Valid()
      modifies this`dispatcherChan, this`dispatched
      ensures Valid() && dispatched == old(dispatched) + [t]
    {
      RouteOne(dispatcherChan, dispatched, t);
      ghost var chans := dispatcherChan[t.road := Queue(dispatcherChan, t.road) + [t]];
      if t.road !in dispatcherChan {
        dispatcherChan := dispatcherChan[t.road := []];
      }
      dispatcherChan := dispatcherChan[t.road := dispatcherChan[t.road] + [t]];
      assert dispatcherChan == chans;
      dispatched := dispatched + [t];
    }

    /** Looks at each day of the ticket in turn, then takes them one by one. */
    method Send(t: Ticket)
      requires Valid()
      modifies this`ticketSent, this`dispatcherChan, this`dispatched
      ensures Valid() && Out() == SendTicket(old(Out()), t)
    {
      if t.plate !in ticketSent {
        ticketSent := ticketSent[t.plate := {}];
      }
      assert ticketSent == old(ticketSent)[t.plate := Ticketed(old(ticketSent), t.plate)];
      var day1, day2 := t.first.timestamp / DAY, t.second.timestamp / DAY;
      var i := day1;
      while i <= day2
        invariant day1 <= i && Valid() && dispatched == old(dispatched)
        invariant ticketSent == old(ticketSent)[t.plate := Ticketed(old(ticketSent), t.plate)]
        invariant forall d :: day1 <= d < i && d <= day2 ==> d !in ticketSent[t.plate]
        decreases day2 + 1 - i
      {
        if i in ticketSent[t.plate] {
          assert i in DaysOf(t);
          return;
        }
        i := i + 1;
      }
      assert DaysOf(t) !! ticketSent[t.plate];
      ghost var taken := ticketSent[t.plate];
      i := day1;
      while i <= day2
        invariant day1 <= i && (i <= day2 + 1 || i == day1) && Valid() && dispatched == old(dispatched)
        invariant t.plate in ticketSent && ticketSent == old(ticketSent)[t.plate := ticketSent[t.plate]]
        invariant forall d :: d in ticketSent[t.plate] <==> d in taken || (day1 <= d < i && d in DaysOf(t))
        decreases day2 + 1 - i
      {
        ticketSent := ticketSent[t.plate := ticketSent[t.plate] + {i}];
        i := i + 1;
      }
      assert ticketSent[t.plate] == taken + DaysOf(t);
      assert ticketSent == old(ticketSent)[t.plate := taken + DaysOf(t)];
      Dispatch(t);
    }

    /**
     * One plate report that no other interrupts: insert, let the sort choose an order, compare with
     * every position of the plate on the road.  `guess` settles each comparison; it is forced wherever
     * the arithmetic is exact.
     */
    method ProcessPlate(me: Sighting, order: seq<Position>, guess: seq<(bool, UInt16)>)
      requires Valid()
      requires multiset(order) == multiset(Seen(databaseLogs, me.plate, me.road) + [me.at]) && Settled(me, order, guess)
      modifies this
      ensures Valid() && databaseLogs == old(databaseLogs)[(me.plate, me.road) := order]
      ensures Out() == Scanned(old(Out()), me, order, guess, |order|)
    {
      databaseLogs := databaseLogs[(me.plate, me.road) := order];
      for i := 0 to |order|
        invariant Valid() && databaseLogs == old(databaseLogs)[(me.plate, me.road) := order]
        invariant Out() == Scanned(old(Out()), me, order, guess, i)
      {
        if order[i] == me.at {
          continue;
        }
        if guess[i].0 {
          Send(TicketFor(me, order[i], guess[i].1));
        }
      }
    }
  }

  /** The tickets after the first n comparisons of a scan. */
  function Scanned(out: Sent, me: Sighting, order: seq<Position>, guess: seq<(bool, UInt16)>, n: nat): Sent
    requires n <= |order| == |guess|
  {
    if n == 0 then out
    else
      var before := Scanned(out, me, order, guess, n - 1);
      if order[n - 1] != me.at && guess[n - 1].0 then SendTicket(before, TicketFor(me, order[n - 1], guess[n - 1].1))
      else before
  }

  // ---------- the object against the step system ----------

  ghost predicate Reaches(s: State, t: State) {
    exists steps :: Legal(s, steps) && Run(s, steps) == t
  }

  lemma {:induction false} RunSnoc(s: State, steps: seq<Step>, step: Step)
    requires Legal(s, steps) && Enabled(Run(s, steps), step)
    ensures Legal(s, steps + [step]) && Run(s, steps + [step]) == Apply(Run(s, steps), step)
    decreases |steps|
  {
    var all := steps + [step];
    if steps == [] {
      assert all == [step] && all[1..] == [];
    } else {
      assert all[0] == steps[0] && all[1..] == steps[1..] + [step];
      RunSnoc(Apply(s, steps[0]), steps[1..], step);
    }
  }

  lemma {:induction false} Next(s: State, t: State, step: Step)
    requires Reaches(s, t) && Enabled(t, step)
    ensures Reaches(s, Apply(t, step))
  {
    var steps :| Legal(s, steps) && Run(s, steps) == t;
    RunSnoc(s, steps, step);
  }

  /** A state in which a camera has made the first n comparisons of its scan. */
  ghost function Compared(s: State, cam: Camera, me: Sighting, order: seq<Position>, guess: seq<(bool, UInt16)>,
                          n: nat): State
    requires n <= |order| == |guess|
  {
    State(s.log + [me], s.positions[(me.plate, me.road) := order], Scanned(s.out, me, order, guess, n),
          s.phases[cam := Scanning(|s.log|, order[n..])], s.began[|s.log| := |s.log| + 1])
  }

  /** Each comparison is settled as far as the arithmetic settles it. */
  ghost predicate Settled(me: Sighting, order: seq<Position>, guess: seq<(bool, UInt16)>) {
    && |order| == |guess|
    && forall i :: 0 <= i < |order| ==> Decides(me, order[i], guess[i].0) && SpeedOk(order[i], me.at, guess[i].1)
  }

  lemma {:induction false} ScanStarts(s: State, cam: Camera, me: Sighting, order: seq<Position>,
                                      guess: seq<(bool, UInt16)>)
    requires Settled(me, order, guess) && Enabled(s, Insert(cam, me, order))
    ensures var t := Apply(s, Insert(cam, me, order));
      Enabled(t, ScanBegin(cam)) && Apply(t, ScanBegin(cam)) == Compared(s, cam, me, order, guess, 0)
  {
    var t := Apply(s, Insert(cam, me, order));
    var t' := Apply(t, ScanBegin(cam));
    assert order[0..] == order;
    assert t'.phases == s.phases[cam := Scanning(|s.log|, order)];
  }

  lemma {:induction false} ScanContinues(s: State, cam: Camera, me: Sighting, order: seq<Position>,
                                         guess: seq<(bool, UInt16)>, n: nat)
    requires n < |order| && Settled(me, order, guess)
    ensures var t, step := Compared(s, cam, me, order, guess, n), ScanOne(cam, guess[n].0, guess[n].1);
      Enabled(t, step) && Apply(t, step) == Compared(s, cam, me, order, guess, n + 1)
  {
    var t := Compared(s, cam, me, order, guess, n);
    var step := ScanOne(cam, guess[n].0, guess[n].1);
    assert t.log[|s.log|] == me;
    assert order[n..][0] == order[n] && order[n..][1..] == order[n + 1..];
    assert Apply(t, step).phases == s.phases[cam := Scanning(|s.log|, order[n + 1..])];
  }

  lemma {:induction false} ComparesNone(s0: State, s: State, cam: Camera, me: Sighting, order: seq<Position>,
                                        guess: seq<(bool, UInt16)>)
    requires Reaches(s0, s) && Settled(me, order, guess) && Enabled(s, Insert(cam, me, order))
    ensures Reaches(s0, Compared(s, cam, me, order, guess, 0))
  {
    Next(s0, s, Insert(cam, me, order));
    ScanStarts(s, cam, me, order, guess);
    Next(s0, Apply(s, Insert(cam, me, order)), ScanBegin(cam));
  }

  lemma {:induction false} ComparesOneMore(s0: State, s: State, cam: Camera, me: Sighting, order: seq<Position>,
                                           guess: seq<(bool, UInt16)>, n: nat)
    requires n < |order| && Settled(me, order, guess) && Reaches(s0, Compared(s, cam, me, order, guess, n))
    ensures Reaches(s0, Compared(s, cam, me, order, guess, n + 1))
  {
    ScanContinues(s, cam, me, order, guess, n);
    Next(s0, Compared(s, cam, me, order, guess, n), ScanOne(cam, guess[n].0, guess[n].1));
  }

  lemma {:induction false} ComparesInTurn(s0: State, s: State, cam: Camera, me: Sighting, order: seq<Position>,
                                          guess: seq<(bool, UInt16)>, n: nat)
    requires n <= |order| && Settled(me, order, guess) && Reaches(s0, Compared(s, cam, me, order, guess, 0))
    ensures Reaches(s0, Compared(s, cam, me, order, guess, n))
  {
    if n > 0 {
      ComparesInTurn(s0, s, cam, me, order, guess, n - 1);
      ComparesOneMore(s0, s, cam, me, order, guess, n - 1);
    }
  }

  /** The server after one plate report that no other interrupted. */
  ghost function Processed(s: State, cam: Camera, me: Sighting, order: seq<Position>, guess: seq<(bool, UInt16)>): State
    requires |order| == |guess|
  {
    State(s.log + [me], s.positions[(me.plate, me.road) := order], Scanned(s.out, me, order, guess, |order|),
          s.phases[cam := Idle], s.began[|s.log| := |s.log| + 1])
  }

  lemma {:induction false} ScanEnds(s: State, cam: Camera, me: Sighting, order: seq<Position>,
                                    guess: seq<(bool, UInt16)>)
    requires |order| == |guess|
    ensures var t := Compared(s, cam, me, order, guess, |order|);
      Enabled(t, ScanEnd(cam)) && Apply(t, ScanEnd(cam)) == Processed(s, cam, me, order, guess)
  {
    var t := Compared(s, cam, me, order, guess, |order|);
    assert Apply(t, ScanEnd(cam)).phases == s.phases[cam := Idle];
  }

  lemma {:induction false} ProcessPlateFrom(s0: State, s: State, cam: Camera, me: Sighting, order: seq<Position>,
                                            guess: seq<(bool, UInt16)>)
    requires Reaches(s0, s) && Settled(me, order, guess) && Enabled(s, Insert(cam, me, order))
    ensures Reaches(s0, Processed(s, cam, me, order, guess))
  {
    ComparesNone(s0, s, cam, me, order, guess);
    ComparesInTurn(s0, s, cam, me, order, guess, |order|);
    ScanEnds(s, cam, me, order, guess);
    Next(s0, Compared(s, cam, me, order, guess, |order|), ScanEnd(cam));
  }

  lemma {:induction false} Start(s: State)
    ensures Reaches(s, s)
  {
    assert Legal(s, []) && Run(s, []) == s;
  }

  /**
   * What ProcessPlate does to the server object is what a run of the step system does when one camera's
   * steps follow each other, so everything proved of runs holds of the object.
   */
  lemma {:induction false} ProcessPlateIsRun(s: State, cam: Camera, me: Sighting, order: seq<Position>,
                                             guess: seq<(bool, UInt16)>)
    requires Settled(me, order, guess) && Enabled(s, Insert(cam, me, order))
    ensures Reaches(s, Processed(s, cam, me, order, guess))
  {
    Start(s);
    ProcessPlateFrom(s, s, cam, me, order, guess);
  }

  // ---------- what the limits of two cameras enforce ----------

  /** A speed that a ticket could print. */
  function Speed(p: Position, q: Position): UInt16 {
    if Time(p, q) > 0 && Distance(p, q) * 100 / Time(p, q) < 0x1_0000 then Distance(p, q) * 100 / Time(p, q) else 0
  }

  /** The first report finds no other position, and sends nothing. */
  lemma {:induction false} FirstReport(x: Sighting)
    ensures var s := Processed(INIT, 0, x, [x.at], [(false, 0)]);
      Reaches(INIT, s) && s.out.tickets == [] && s.log == [x] && s.phases == map[0 := Idle]
      && Seen(s.positions, x.plate, x.road) == [x.at]
  {
    FirstIsSettled(x);
    ProcessPlateIsRun(INIT, 0, x, [x.at], [(false, 0)]);
    FirstScan(INIT.out, x, [(false, 0)]);
    assert [] + [x] == [x];
  }

  lemma {:induction false} FirstIsSettled(x: Sighting)
    ensures Settled(x, [x.at], [(false, 0)]) && Enabled(INIT, Insert(0, x, [x.at]))
  {
    assert Time(x.at, x.at) == 0;
    assert [] + [x.at] == [x.at];
  }

  lemma {:induction false} FirstScan(out: Sent, x: Sighting, guess: seq<(bool, UInt16)>)
    requires |guess| == 1
    ensures Scanned(out, x, [x.at], guess, 1) == out
  {
    assert Scanned(out, x, [x.at], guess, 0) == out;
  }

  lemma {:induction false} SecondScan(out: Sent, x: Sighting, y: Sighting, guess: seq<(bool, UInt16)>)
    requires |guess| == 2 && !guess[0].0
    ensures Scanned(out, y, [x.at, y.at], guess, 2) == out
  {
    var order := [x.at, y.at];
    assert Scanned(out, y, order, guess, 0) == out;
    assert Scanned(out, y, order, guess, 1) == out;
  }

  lemma {:induction false} SecondIsSettled(x: Sighting, y: Sighting)
    requires Measurable(x.at, y.at) && !Exceeds(x.at, y.at, y.limit)
    ensures Settled(y, [x.at, y.at], [(false, Speed(x.at, y.at)), (false, 0)])
  {
    InRangeIff(x.at, y.at);
    TooFastIff(x.at, y.at, y.limit);
    assert Time(y.at, y.at) == 0;
  }

  /** The second report compares with the first by its own camera's limit. */
  lemma {:induction false} SecondReport(s: State, x: Sighting, y: Sighting)
    requires Reaches(INIT, s)
    requires s.log == [x] && s.phases == map[0 := Idle] && Seen(s.positions, x.plate, x.road) == [x.at]
    requires x.plate == y.plate && x.road == y.road && Measurable(x.at, y.at) && !Exceeds(x.at, y.at, y.limit)
    ensures var guess := [(false, Speed(x.at, y.at)), (false, 0)];
      var t := Processed(s, 1, y, [x.at, y.at], guess);
      Reaches(INIT, t) && t.out == s.out && t.log == [x, y] && t.phases == map[0 := Idle, 1 := Idle]
  {
    var order, guess := [x.at, y.at], [(false, Speed(x.at, y.at)), (false, 0)];
    SecondIsSettled(x, y);
    assert Enabled(s, Insert(1, y, order)) by {
      assert [x.at] + [y.at] == order;
    }
    ProcessPlateFrom(INIT, s, 1, y, order, guess);
    SecondScan(s.out, x, y, guess);
    assert [x] + [y] == [x, y];
  }

  /** A run in which these two sightings, in this order, are all there is, all scans are done, and no ticket is sent. */
  ghost predicate Escapes(steps: seq<Step>, x: Sighting, y: Sighting) {
    && Legal(INIT, steps)
    && var s := Run(INIT, steps);
       s.log == [x, y] && s.out.tickets == [] && forall cam :: cam in s.phases ==> s.phases[cam].Idle?
  }

  /**
   * Two sightings can go without a ticket exactly when they are not too fast for the camera of the one
   * inserted last, whatever the limit of the other.
   */
  lemma {:induction false} EscapeIff(x: Sighting, y: Sighting)
    requires x.plate == y.plate && x.road == y.road && x.at != y.at && Measurable(x.at, y.at)
    ensures (exists steps :: Escapes(steps, x, y)) <==> !Exceeds(x.at, y.at, y.limit)
  {
    if !Exceeds(x.at, y.at, y.limit) {
      FirstReport(x);
      var s := Processed(INIT, 0, x, [x.at], [(false, 0)]);
      SecondReport(s, x, y);
      var t := Processed(s, 1, y, [x.at, y.at], [(false, Speed(x.at, y.at)), (false, 0)]);
      var steps :| Legal(INIT, steps) && Run(INIT, steps) == t;
      assert Escapes(steps, x, y);
    } else if steps :| Escapes(steps, x, y) {
      SpeedersAreTicketed(steps, 0, 1);
      assert false;
    }
  }
}
