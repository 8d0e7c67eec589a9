/** The anvil server itself (src/anvil/anvil.c): a table of shared remote entries with stored
    counters, one link per client, and expiry timers. */
module AnvilServer {
  import opened AnvilModel

  /** The event counters of an entry. */
  datatype Rates = Rates(rate: int, mail: int, rcpt: int, ntls: int, auth: int) {

    function Get(k: Kind): int {
      match k
      case Conn => rate
      case Mail => mail
      case Rcpt => rcpt
      case Ntls => ntls
      case Auth => auth
    }

    function With(k: Kind, n: int): (r: Rates)
      ensures forall h :: r.Get(h) == if h == k then n else Get(h)
    {
      match k
      case Conn => this.(rate := n)
      case Mail => this.(mail := n)
      case Rcpt => this.(rcpt := n)
      case Ntls => this.(ntls := n)
      case Auth => this.(auth := n)
    }
  }

  const NO_RATES := Rates(0, 0, 0, 0, 0)

  /** The anvil_remote_expire timer of an entry. */
  datatype Timer = Idle | Pending(due: int)

  /** The contents of an entry, with the position in the log of the event that opened its window. */
  datatype Fields = Fields(ident: string, count: int, rates: Rates, start: int, timer: Timer, first: nat)

  /** The stored fields say what the links and the log say; a connection that is held was counted
      but not linked to its client yet. */
  ghost predicate Matches(x: Fields, i: string, s: State, held: set<string>, unit: int) {
    && x.ident == i && i in s.entries
    && x.count == |Clients(s.links, i)| + (if i in held then 1 else 0)
    && x.timer == (if i in s.due && i !in held then Pending(s.due[i]) else Idle)
    && (forall k :: x.rates.Get(k) == Rate(s, i, k))
    && (s.entries[i].Open? ==> x.start == s.entries[i].start && x.first == s.entries[i].first && unit < x.start)
    && (s.entries[i].Closed? ==> x.start == 0)
  }

  /** ANVIL_REMOTE, one instance for each entry. */
  class Remote {
    const ident: string
    var count: int
    var rates: Rates
    var start: int
    var timer: Timer
    ghost var first: nat

    ghost function Now(): Fields
      reads this
    {
      Fields(ident, count, rates, start, timer, first)
    }

    /** ANVIL_REMOTE_FIRST_CONN */
    constructor (ident: string, now: int, ghost first: nat)
      ensures Now() == Fields(ident, 1, NO_RATES.With(Conn, 1), now, Idle, first)
    {
      this.ident, count, rates, start, timer, this.first := ident, 1, Rates(1, 0, 0, 0, 0), now, Idle, first;
    }

    /** ANVIL_REMOTE_INCR_RATE */
    method IncrRate(k: Kind, now: int, unit: int, ghost first: nat)
      modifies this
      ensures Now() == Bumped(old(Now()), k, now, unit, first)
    {
      if start + unit < now {
        rates, start, this.first := NO_RATES, now, first;
      }
      if rates.Get(k) < INT_MAX { rates := rates.With(k, rates.Get(k) + 1); }
    }
  }

  function Bumped(x: Fields, k: Kind, now: int, unit: int, first: nat): Fields {
    var y := if x.start + unit < now then x.(rates := NO_RATES, start := now, first := first) else x;
    if y.rates.Get(k) < INT_MAX then y.(rates := y.rates.With(k, y.rates.Get(k) + 1)) else y
  }

  function Dropped(x: Fields, now: int, unit: int): Fields {
    if x.count <= 0 then x
    else x.(count := x.count - 1, timer := if x.count == 1 then Pending(now + unit) else x.timer)
  }

  // ----- Entries under the steps of the model -----

  lemma UnlinkClients(s: State, c: int, unit: int)
    requires c in s.links
    ensures var t := Unlink(s, c, unit); var i := s.links[c];
            && |Clients(s.links, i)| >= 1 && t.entries == s.entries
            && (forall h :: |Clients(t.links, h)| == |Clients(s.links, h)| - if h == i then 1 else 0)
            && t.due == (if |Clients(s.links, i)| == 1 then s.due[i := s.clock + unit] else s.due)
  {
    var t, i := Unlink(s, c, unit), s.links[c];
    forall h ensures |Clients(t.links, h)| == |Clients(s.links, h)| - if h == i then 1 else 0 {
      ClientsWithout(s.links, c, h);
      if h == i { assert c in Clients(s.links, i); }
    }
  }

  /** Counting an event adds to one rate, in a window that was restarted if it was stale. */
  lemma BumpRates(s: State, i: string, k: Kind, h: string, unit: int)
    requires Good(s, unit)
    ensures var b := Bump(s, i, k, unit);
            forall j :: Rate(b, h, j) ==
              if h != i then Rate(s, h, j) else
                var n := if i !in s.entries || s.entries[i].Closed? || Stale(s.entries[i], unit, s.clock) then 0 else Rate(s, i, j);
                if j == k && n < INT_MAX then n + 1 else n
  {
    var b := Bump(s, i, k, unit);
    var e := Event(i, k, s.clock);
    if h in s.entries { assert InWindow(s.log, h, s.entries[h], unit); }
    forall j ensures h in s.entries && s.entries[h].Open? ==>
        Events(b.log, s.entries[h].first, h, j) == Events(s.log, s.entries[h].first, h, j) + if h == i && j == k then 1 else 0 {
      if h in s.entries && s.entries[h].Open? { EventsNext(s.log, s.entries[h].first, h, j, e); }
    }
    forall j ensures Events(b.log, |s.log|, h, j) == if h == i && j == k then 1 else 0 {
      EventsNext(s.log, |s.log|, h, j, e);
    }
  }

  lemma BumpMatches(x: Fields, s: State, i: string, k: Kind, unit: int)
    requires Good(s, unit) && Matches(x, i, s, {}, unit) && unit < s.clock
    ensures Matches(Bumped(x, k, s.clock, unit, |s.log|), i, Bump(s, i, k, unit), {}, unit)
  {
    hide Good, Rate, Clients;
    BumpRates(s, i, k, i, unit);
  }

  lemma FirstMatches(s: State, i: string, unit: int)
    requires Good(s, unit) && i !in s.entries && unit < s.clock
    ensures Matches(Fields(i, 1, NO_RATES.With(Conn, 1), s.clock, Idle, |s.log|), i, Bump(s, i, Conn, unit), {i}, unit)
  {
    hide Rate;
    BumpRates(s, i, Conn, i, unit);
    assert forall c :: c !in Clients(s.links, i);
  }

  lemma OtherMatches(x: Fields, h: string, s: State, i: string, k: Kind, unit: int)
    requires Good(s, unit) && Matches(x, h, s, {}, unit) && h != i
    ensures Matches(x, h, Bump(s, i, k, unit), {i}, unit) && Matches(x, h, Bump(s, i, k, unit), {}, unit)
  {
    hide Good, Rate, Clients;
    BumpRates(s, i, k, h, unit);
  }

  lemma UnlinkMatches(x: Fields, h: string, s: State, c: int, held: set<string>, unit: int)
    requires Matches(x, h, s, held, unit) && c in s.links
    ensures Matches(if h == s.links[c] then Dropped(x, s.clock, unit) else x, h, Unlink(s, c, unit), held, unit)
  {
    hide Events, Clients;
    UnlinkClients(s, c, unit);
    forall k ensures Rate(Unlink(s, c, unit), h, k) == Rate(s, h, k) { }
  }

  lemma LinkMatches(x: Fields, h: string, s: State, c: int, i: string, unit: int)
    requires Matches(x, h, Unlink(s, c, unit), {i}, unit)
    ensures Matches(x, h, Link(s, c, i, unit), {}, unit)
  {
    hide Events;
    ClientsWith(Unlink(s, c, unit).links, c, i, h);
    forall k ensures Rate(Link(s, c, i, unit), h, k) == Rate(Unlink(s, c, unit), h, k) { }
  }

  // ----- The whole table under the steps of the model -----

  ghost predicate MatchAll(v: map<string, Fields>, s: State, held: set<string>, unit: int) {
    v.Keys == s.entries.Keys && forall i :: i in v ==> Matches(v[i], i, s, held, unit)
  }

  lemma AllTick(v: map<string, Fields>, s: State, now: int, unit: int)
    requires Good(s, unit) && MatchAll(v, s, {}, unit) && s.clock <= now
    ensures Good(s.(clock := now), unit) && MatchAll(v, s.(clock := now), {}, unit)
  {
    hide InWindow;
    forall h | h in v ensures Matches(v[h], h, s.(clock := now), {}, unit) { assert Matches(v[h], h, s, {}, unit); }
  }

  lemma AllFirst(v: map<string, Fields>, s: State, i: string, unit: int)
    requires Good(s, unit) && MatchAll(v, s, {}, unit) && i !in v && unit < s.clock
    ensures MatchAll(v[i := Fields(i, 1, NO_RATES.With(Conn, 1), s.clock, Idle, |s.log|)], Bump(s, i, Conn, unit), {i}, unit)
  {
    hide Good, Matches;
    FirstMatches(s, i, unit);
    forall h | h in v && h != i ensures Matches(v[h], h, Bump(s, i, Conn, unit), {i}, unit) {
      OtherMatches(v[h], h, s, i, Conn, unit);
    }
  }

  lemma AllNext(v: map<string, Fields>, s: State, i: string, unit: int)
    requires Good(s, unit) && MatchAll(v, s, {}, unit) && i in v && unit < s.clock
    ensures var x := Bumped(v[i], Conn, s.clock, unit, |s.log|);
            MatchAll(v[i := x.(count := x.count + 1, timer := Idle)], Bump(s, i, Conn, unit), {i}, unit)
  {
    hide Good, Matches, Bumped;
    BumpMatches(v[i], s, i, Conn, unit);
    HeldMatches(Bumped(v[i], Conn, s.clock, unit, |s.log|), i, Bump(s, i, Conn, unit), unit);
    forall h | h in v && h != i ensures Matches(v[h], h, Bump(s, i, Conn, unit), {i}, unit) {
      OtherMatches(v[h], h, s, i, Conn, unit);
    }
  }

  lemma AllBump(v: map<string, Fields>, s: State, i: string, k: Kind, unit: int)
    requires Good(s, unit) && MatchAll(v, s, {}, unit) && i in v && unit < s.clock
    ensures MatchAll(v[i := Bumped(v[i], k, s.clock, unit, |s.log|)], Bump(s, i, k, unit), {}, unit)
  {
    hide Good, Matches, Bumped;
    BumpMatches(v[i], s, i, k, unit);
    forall h | h in v && h != i ensures Matches(v[h], h, Bump(s, i, k, unit), {}, unit) {
      OtherMatches(v[h], h, s, i, k, unit);
    }
  }

  lemma AllUnlink(v: map<string, Fields>, s: State, c: int, held: set<string>, unit: int)
    requires MatchAll(v, s, held, unit) && c in s.links && s.links[c] in v
    ensures var i := s.links[c];
            MatchAll(v[i := Dropped(v[i], s.clock, unit)], Unlink(s, c, unit), held, unit)
  {
    hide Matches;
    forall h | h in v ensures Matches(if h == s.links[c] then Dropped(v[h], s.clock, unit) else v[h], h, Unlink(s, c, unit), held, unit) {
      UnlinkMatches(v[h], h, s, c, held, unit);
    }
  }

  lemma AllLink(v: map<string, Fields>, s: State, c: int, i: string, unit: int)
    requires MatchAll(v, Unlink(s, c, unit), {i}, unit)
    ensures MatchAll(v, Link(s, c, i, unit), {}, unit)
  {
    hide Matches;
    forall h | h in v ensures Matches(v[h], h, Link(s, c, i, unit), {}, unit) {
      LinkMatches(v[h], h, s, c, i, unit);
    }
  }

  lemma AllLooked(v: map<string, Fields>, s: State, i: string, unit: int)
    requires Good(s, unit) && MatchAll(v, s, {}, unit) && i in v && unit >= 0
    ensures (v[i].start != 0 && v[i].start + unit < s.clock) <==> Stale(s.entries[i], unit, s.clock)
    ensures Stale(s.entries[i], unit, s.clock) ==>
              MatchAll(v[i := v[i].(rates := NO_RATES, start := 0)], Looked(s, i, unit), {}, unit)
    ensures Good(Looked(s, i, unit), unit)
  {
    hide InWindow, Clients, Events;
    assert Matches(v[i], i, s, {}, unit);
    ClosedInWindow(s.log, i, unit);
    if Stale(s.entries[i], unit, s.clock) {
      forall h | h in v && h != i ensures Matches(v[h], h, Looked(s, i, unit), {}, unit) {
        assert Matches(v[h], h, s, {}, unit);
      }
    }
  }

  lemma AllExpired(v: map<string, Fields>, s: State, i: string, unit: int)
    requires Good(s, unit) && MatchAll(v, s, {}, unit) && i in v
    ensures v[i].timer == if i in s.due then Pending(s.due[i]) else Idle
    ensures i in s.due ==> v[i].count == 0 && forall c :: c in s.links ==> s.links[c] != i
    ensures i in s.due && s.due[i] <= s.clock ==> MatchAll(v - {i}, Expired(s, i), {}, unit) && Good(Expired(s, i), unit)
  {
    hide InWindow, Clients, Events;
    AllMeans(v, s, {}, unit, i);
    DueWhenZero(s, i, unit);
    LinkedIsClient(s.links, i);
    if i in s.due && s.due[i] <= s.clock {
      forall h | h in v && h != i ensures Matches(v[h], h, Expired(s, i), {}, unit) {
        assert Matches(v[h], h, s, {}, unit);
      }
    }
  }

  // ----- The server -----

  class Server {
    const unit: int
    var table: map<string, Remote>
    /** ANVIL_LOCAL of each client that has one. */
    var locals: map<int, Remote?>
    ghost var state: State

    ghost function Shown(): map<string, Fields>
      reads `table, table.Values
    {
      map i | i in table :: table[i].Now()
    }

    ghost predicate TableOk(s: State, held: set<string>)
      reads `table, table.Values
    {
      MatchAll(Shown(), s, held, unit) && forall i :: i in table ==> table[i].ident == i
    }

    /** Nobody is linked to an entry that was freed. */
    ghost predicate LocalsOk(s: State)
      reads `table, `locals
    {
      && (forall c :: c in s.links ==> s.links[c] in table && c in locals && locals[c] == table[s.links[c]])
      && (forall c :: c in locals && c !in s.links ==> locals[c] == null)
    }

    ghost predicate Valid()
      reads this, table.Values
    {
      && unit >= 0 && TableOk(state, {}) && LocalsOk(state) && Good(state, unit)
    }

    constructor (unit: int)
      requires unit >= 0
      ensures Valid() && state == START && this.unit == unit && table == map[]
    {
      this.unit, table, locals, state := unit, map[], map[], START;
    }

    /** ANVIL_REMOTE_DROP_ONE, on the entry of a client. */
    method DropOne(r: Remote, now: int, ghost s: State, ghost c: int, ghost held: set<string>)
      requires TableOk(s, held) && s.clock == now
      requires c in s.links && s.links[c] in table && r == table[s.links[c]]
      modifies r`count, r`timer
      ensures var t := Unlink(s, c, unit); TableOk(t, held)
    {
      hide MatchAll, Unlink;
      ghost var i, v := s.links[c], Shown();
      AllUnlink(v, s, c, held, unit);
      if r.count > 0 {
        r.count := r.count - 1;
        if r.count == 0 { r.timer := Pending(now + unit); }
      }
      assert Shown() == v[i := Dropped(v[i], s.clock, unit)];
    }

    /** The entries as they are after a connection to entry i was counted but not linked yet. */
    ghost predicate Holds(i: string)
      reads `table, `locals, `state, table.Values
    {
      var b := Bump(state, i, Conn, unit);
      i in table && TableOk(b, {i}) && LocalsOk(b)
    }

    /** The first connection makes a new entry. */
    method FirstConn(i: string, now: int)
      requires Valid() && state.clock == now && unit < now && i !in table
      modifies `table
      ensures Holds(i) && i in table && fresh(table.Values - old(table.Values))
    {
      hide Good, MatchAll, Bump;
      ghost var v := Shown();
      AllFirst(v, state, i, unit);
      var r := new Remote(i, now, |state.log|);
      table := table[i := r];
      assert Shown() == v[i := r.Now()];
      HoldsWhen(i);
    }

    lemma HoldsWhen(i: string)
      requires i in table && MatchAll(Shown(), Bump(state, i, Conn, unit), {i}, unit) && LocalsOk(state)
      requires forall h :: h in table ==> table[h].ident == h
      ensures Holds(i)
    {
      hide MatchAll, Bump, Shown;
      BumpParts(state, i, Conn, unit);
    }

    /** ANVIL_REMOTE_NEXT_CONN */
    method NextConn(i: string, now: int)
      requires Valid() && state.clock == now && unit < now && i in table
      modifies table[i]
      ensures Holds(i) && table == old(table)
    {
      hide Good, Clients, MatchAll, Bump, Bumped, LocalsOk;
      ghost var v := Shown();
      AllNext(v, state, i, unit);
      AllMeans(v, state, {}, unit, i);
      BumpedCount(v[i], Conn, now, unit, |state.log|);
      DueWhenZero(state, i, unit);
      var r := table[i];
      r.IncrRate(Conn, now, unit, |state.log|);
      if r.count == 0 { r.timer := Idle; }
      r.count := r.count + 1;
      assert Shown() == v[i := r.Now()];
      HoldsWhen(i);
    }

    lemma TableLink(s: State, c: int, i: string)
      requires TableOk(Unlink(s, c, unit), {i})
      ensures TableOk(Link(s, c, i, unit), {})
    {
      hide MatchAll, Link, Unlink;
      AllLink(Shown(), s, c, i, unit);
    }

    /** ANVIL_LOCAL_INIT for a new client and ANVIL_LOCAL_ADD_ONE, after the connection was counted. */
    method AddOne(c: int, i: string, now: int)
      requires Holds(i) && unit >= 0 && Good(state, unit) && state.clock == now
      modifies `locals, `state, table.Values
      ensures Valid() && state == Connected(old(state), c, i, unit)
    {
      hide TableOk, Bump, Link, Unlink, Good;
      ghost var b := Bump(state, i, Conn, unit);
      BumpParts(state, i, Conn, unit);
      UnlinkLinks(b, c, i, unit);
      var linked := if c in locals then locals[c] else null;
      if linked != null { DropOne(linked, now, b, c, {i}); }
      TableLink(b, c, i);
      GoodConnected(state, c, i, unit);
      locals := locals[c := table[i]];
      state := Connected(state, c, i, unit);
    }

    /** anvil_remote_conn_update */
    method ConnUpdate(c: int, i: string, now: int)
      requires Valid() && state.clock == now && unit < now
      modifies `table, `locals, `state, table.Values
      ensures Valid() && state == Connected(old(state), c, i, unit)
      ensures i in table && fresh(table.Values - old(table.Values))
    {
      hide TableOk, LocalsOk, Holds, Good, Connected;
      if i !in table { FirstConn(i, now); } else { NextConn(i, now); }
      AddOne(c, i, now);
    }

    /** Time passes. */
    ghost method Tick(now: int)
      requires Valid() && state.clock <= now
      modifies `state
      ensures Valid() && state == old(state).(clock := now)
    {
      hide Good, Shown;
      AllTick(Shown(), state, now, unit);
      state := state.(clock := now);
    }

    lemma Known(i: string)
      requires Valid()
      ensures i in table <==> i in state.entries
      ensures i in table ==> table[i].count == |Clients(state.links, i)| && forall k :: table[i].rates.Get(k) == Rate(state, i, k)
    {
      hide Good, LocalsOk, Rate;
      if i in table { AllMeans(Shown(), state, {}, unit, i); }
    }

    lemma LinkedTo(c: int, i: string)
      requires Valid() && c in locals && locals[c] != null && ((i in table && locals[c] == table[i]) || locals[c].ident == i)
      ensures c in state.links && state.links[c] == i && i in table && locals[c] == table[i]
    {
      hide Good, MatchAll;
    }

    /** anvil_remote_connect */
    method Connect(c: int, i: string, now: int) returns (count: int, rate: int)
      requires Valid() && state.clock <= now && unit < now
      modifies `table, `locals, `state, table.Values
      ensures Valid() && state == Step(old(state), Request.Connect(c, i), now, unit)
      ensures count == |Clients(state.links, i)| && rate == Rate(state, i, Conn)
      ensures fresh(table.Values - old(table.Values))
    {
      hide Valid, Connected, Rate;
      Tick(now);
      ConnUpdate(c, i, now);
      Known(i);
      return table[i].count, table[i].rates.Get(Conn);
    }

    /** anvil_remote_mail, _rcpt, _auth and _newtls */
    method Register(c: int, i: string, k: Kind, now: int) returns (rate: int)
      requires Valid() && state.clock <= now && unit < now
      modifies `table, `locals, `state, table.Values
      ensures Valid() && state == Step(old(state), Count(c, i, k), now, unit)
      ensures rate == Rate(state, i, k)
      ensures fresh(table.Values - old(table.Values))
    {
      hide Valid, Connected, Rate, Bump;
      Tick(now);
      Known(i);
      if i !in table { ConnUpdate(c, i, now); }
      ConnectedKnows(old(state).(clock := now), c, i, unit);
      Increment(i, k, now);
      Known(i);
      return table[i].rates.Get(k);
    }

    method Increment(i: string, k: Kind, now: int)
      requires Valid() && state.clock == now && unit < now && i in table
      modifies `state, table[i]
      ensures Valid() && state == Bump(old(state), i, k, unit)
    {
      hide MatchAll, Bump, Bumped, Good;
      ghost var v := Shown();
      Known(i);
      AllBump(v, state, i, k, unit);
      BumpParts(state, i, k, unit);
      BumpedCount(v[i], k, now, unit, |state.log|);
      GoodBump(state, i, k, unit);
      table[i].IncrRate(k, now, unit, |state.log|);
      state := Bump(state, i, k, unit);
      assert Shown() == v[i := table[i].Now()];
    }

    /** anvil_remote_disconnect */
    method Disconnect(c: int, i: string, now: int)
      requires Valid() && state.clock <= now
      modifies `locals, `state, table.Values
      ensures Valid() && state == Step(old(state), Request.Disconnect(c, i), now, unit)
    {
      hide TableOk, Good, Unlink;
      Tick(now);
      ghost var s := state;
      UnlinkLinks(s, c, i, unit);
      if c in locals && i in table && locals[c] == table[i] {
        LinkedTo(c, i);
        GoodUnlink(s, c, unit);
        DropOne(table[i], now, s, c, {});
        locals := locals[c := null];
        state := Unlink(s, c, unit);
      }
    }

    /** anvil_service_done */
    method Done(c: int, now: int)
      requires Valid() && state.clock <= now
      modifies `locals, `state, table.Values
      ensures Valid() && state == Step(old(state), Request.Done(c), now, unit)
    {
      hide TableOk, Good;
      UnlinkLinks(state.(clock := now), c, "", unit);
      if c in locals && locals[c] != null {
        LinkedTo(c, locals[c].ident);
        Disconnect(c, locals[c].ident, now);
      } else {
        Tick(now);
      }
      locals := locals - {c};
    }

    /** The replies of anvil_remote_lookup and _newtls_stat: a stale window is not reported. */
    method Lookup(i: string, now: int) returns (count: int, rates: Rates)
      requires Valid() && state.clock <= now && unit < now
      modifies `state, table.Values
      ensures Valid() && state == Step(old(state), Request.Lookup(i), now, unit)
      ensures count == |Clients(state.links, i)| && forall k :: rates.Get(k) == Rate(state, i, k)
    {
      hide MatchAll, Good, Rate, Looked, Clients;
      Tick(now);
      Known(i);
      if i !in table { NotKnown(state, i, unit); return 0, NO_RATES; }
      ghost var v := Shown();
      AllLooked(v, state, i, unit);
      if table[i].start != 0 && table[i].start + unit < now {
        table[i].rates, table[i].start := NO_RATES, 0;
        assert Shown() == v[i := table[i].Now()];
      }
      LookedKeeps(state, i, unit);
      state := Looked(state, i, unit);
      Known(i);
      return table[i].count, table[i].rates;
    }

    /** The timer of an entry, and what holds without the entry once it is due. */
    lemma DueEntry(i: string)
      requires Valid()
      ensures i in table ==> table[i].timer == if i in state.due then Pending(state.due[i]) else Idle
      ensures i in state.due ==> i in table && table[i].count == 0
      ensures i in state.due && state.due[i] <= state.clock ==>
                && MatchAll(Shown() - {i}, Expired(state, i), {}, unit) && Good(Expired(state, i), unit)
                && forall c :: c in state.links ==> state.links[c] != i
    {
      hide MatchAll, Good, Expired;
      Known(i);
      KnownWhenDue(state, unit);
      if i in table { AllExpired(Shown(), state, i, unit); }
    }

    /** The entry is freed. */
    method Free(i: string)
      requires Valid() && i in table && i in state.due && state.due[i] <= state.clock
      modifies `table
      ensures table == old(table) - {i} && TableOk(Expired(state, i), {}) && LocalsOk(Expired(state, i))
      ensures Good(Expired(state, i), unit)
    {
      hide MatchAll, Good, Expired;
      DueEntry(i);
      ExpiredKeeps(state, i);
      ghost var v := Shown();
      table := table - {i};
      assert Shown() == v - {i};
    }

    /** anvil_remote_expire, called by the event loop when the timer of an entry is due. */
    method Expire(i: string, now: int)
      requires Valid() && state.clock <= now
      modifies `table, `state
      ensures Valid() && state == Step(old(state), Request.Expire(i), now, unit)
      ensures fresh(table.Values - old(table.Values))
    {
      hide MatchAll, Good, Expired, TableOk, LocalsOk;
      Tick(now);
      Known(i);
      DueEntry(i);
      ExpiredKeeps(state, i);
      if i in table && table[i].timer.Pending? && table[i].timer.due <= now {
        if table[i].count != 0 { assert false; }   // msg_panic
        Free(i);
      }
      state := Expired(state, i);
    }

    /** Any run of requests and timer events, with a clock that does not run backwards, takes the
        server through the states of the model. */
    method Run(rs: seq<(int, Request)>)
      requires Valid() && Monotone(state.clock, rs, unit)
      modifies `table, `locals, `state, table.Values
      ensures Valid() && state == Steps(old(state), rs, unit)
      ensures fresh(table.Values - old(table.Values))
      decreases |rs|
    {
      hide Valid, Step;
      if rs != [] {
        Serve(rs[0].1, rs[0].0);
        ClockStep(old(state), rs[0].1, rs[0].0, unit);
        Run(rs[1..]);
      }
    }

    method Serve(r: Request, now: int)
      requires Valid() && state.clock <= now && unit < now
      modifies `table, `locals, `state, table.Values
      ensures Valid() && state == Step(old(state), r, now, unit)
      ensures fresh(table.Values - old(table.Values))
    {
      hide Valid, Step;
      match r
      case Connect(c, i) => var _, _ := Connect(c, i, now);
      case Count(c, i, k) => var _ := Register(c, i, k, now);
      case Disconnect(c, i) => Disconnect(c, i, now);
      case Lookup(i) => var _, _ := Lookup(i, now);
      case Done(c) => Done(c, now);
      case Expire(i) => Expire(i, now);
    }
  }

  lemma ClockStep(s: State, r: Request, now: int, unit: int)
    ensures Step(s, r, now, unit).clock == now
  {
  }

  lemma NotKnown(s: State, i: string, unit: int)
    requires Good(s, unit) && i !in s.entries
    ensures Clients(s.links, i) == {} && Looked(s, i, unit) == s && forall k :: Rate(s, i, k) == 0
  {
    assert forall c :: c !in Clients(s.links, i);
  }

  lemma LookedKeeps(s: State, i: string, unit: int)
    ensures Looked(s, i, unit).links == s.links
    ensures !(i in s.entries && Stale(s.entries[i], unit, s.clock)) ==> Looked(s, i, unit) == s
  {
  }

  lemma ExpiredKeeps(s: State, i: string)
    ensures Expired(s, i).links == s.links
    ensures !(i in s.due && s.due[i] <= s.clock) ==> Expired(s, i) == s
  {
  }

  lemma UnlinkLinks(s: State, c: int, i: string, unit: int)
    ensures Unlink(s, c, unit).links == s.links - {c} && Unlink(s, c, unit).entries == s.entries
    ensures Link(s, c, i, unit).links == s.links[c := i] && Link(s, c, i, unit).entries == s.entries
    ensures c !in s.links ==> Unlink(s, c, unit) == s
  {
  }

  lemma DueWhenZero(s: State, i: string, unit: int)
    requires Good(s, unit)
    ensures i in s.due <==> i in s.entries && |Clients(s.links, i)| == 0
  {
  }

  lemma BumpParts(s: State, i: string, k: Kind, unit: int)
    ensures var b := Bump(s, i, k, unit);
            b.links == s.links && b.due == s.due && b.clock == s.clock && b.entries.Keys == s.entries.Keys + {i}
  {
  }

  lemma KnownWhenDue(s: State, unit: int)
    requires Good(s, unit)
    ensures forall i :: i in s.due ==> i in s.entries
  {
  }

  lemma BumpedCount(x: Fields, k: Kind, now: int, unit: int, first: nat)
    ensures Bumped(x, k, now, unit, first).count == x.count && Bumped(x, k, now, unit, first).ident == x.ident
    ensures Bumped(x, k, now, unit, first).timer == x.timer
  {
  }

  lemma AllMeans(v: map<string, Fields>, s: State, held: set<string>, unit: int, i: string)
    requires MatchAll(v, s, held, unit) && i in v
    ensures v[i].ident == i && v[i].count == |Clients(s.links, i)| + (if i in held then 1 else 0)
    ensures v[i].timer == if i in s.due && i !in held then Pending(s.due[i]) else Idle
    ensures forall k :: v[i].rates.Get(k) == Rate(s, i, k)
  {
    assert Matches(v[i], i, s, held, unit);
  }

  lemma HeldMatches(x: Fields, i: string, s: State, unit: int)
    requires Matches(x, i, s, {}, unit)
    ensures Matches(x.(count := x.count + 1, timer := Idle), i, s, {i}, unit)
  {
  }
}
