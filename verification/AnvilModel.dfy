/** Connection and rate accounting of the anvil server (src/anvil/anvil.c) as a state machine
    without counters: which client is linked to which remote entry, and which events happened. */
module AnvilModel {

  datatype Kind = Conn | Mail | Rcpt | Ntls | Auth

  datatype Event = Event(ident: string, kind: Kind, time: int)

  /** A rate window opens with an event; a stale one that was looked at is closed. */
  datatype Window = Closed | Open(start: int, first: nat)

  /** All events so far, the windows of the known entries, the entry that each client is linked
      to, and when the entries that nobody is linked to expire. */
  datatype State = State(log: seq<Event>, entries: map<string, Window>, links: map<int, string>,
                         due: map<string, int>, clock: int)

  datatype Request =
    | Connect(client: int, ident: string)
    | Count(client: int, ident: string, kind: Kind)
    | Disconnect(client: int, ident: string)
    | Lookup(ident: string)
    | Done(client: int)
    | Expire(ident: string)

  const START := State([], map[], map[], map[], 0)

  function Clients(links: map<int, string>, i: string): set<int> { set c | c in links && links[c] == i }

  // ----- Steps -----

  predicate Stale(w: Window, unit: int, now: int) { w.Open? && w.start + unit < now }

  /** Counts one event, in a fresh window if there is none or the old one is stale. */
  function Bump(s: State, i: string, k: Kind, unit: int): State {
    var was := if i in s.entries then s.entries[i] else Closed;
    var w := if was.Closed? || Stale(was, unit, s.clock) then Open(s.clock, |s.log|) else was;
    s.(log := s.log + [Event(i, k, s.clock)], entries := s.entries[i := w])
  }

  /** The client lets go of its entry, if any; an entry without clients will expire. */
  function Unlink(s: State, c: int, unit: int): State {
    if c !in s.links then s else
      var i := s.links[c];
      var links := s.links - {c};
      s.(links := links, due := if Clients(links, i) == {} then s.due[i := s.clock + unit] else s.due)
  }

  function Link(s: State, c: int, i: string, unit: int): State {
    var t := Unlink(s, c, unit);
    t.(links := t.links[c := i], due := t.due - {i})
  }

  function Connected(s: State, c: int, i: string, unit: int): State { Link(Bump(s, i, Conn, unit), c, i, unit) }

  function Counted(s: State, c: int, i: string, k: Kind, unit: int): State {
    Bump(if i in s.entries then s else Connected(s, c, i, unit), i, k, unit)
  }

  function Disconnected(s: State, c: int, i: string, unit: int): State {
    if c in s.links && s.links[c] == i then Unlink(s, c, unit) else s
  }

  function Looked(s: State, i: string, unit: int): State {
    if i in s.entries && Stale(s.entries[i], unit, s.clock) then s.(entries := s.entries[i := Closed]) else s
  }

  /** The timer of an entry fires no earlier than it is due. */
  function Expired(s: State, i: string): State {
    if i in s.due && s.due[i] <= s.clock then s.(entries := s.entries - {i}, due := s.due - {i}) else s
  }

  function Step(s: State, r: Request, now: int, unit: int): State {
    var t := s.(clock := now);
    match r
    case Connect(c, i) => Connected(t, c, i, unit)
    case Count(c, i, k) => Counted(t, c, i, k, unit)
    case Disconnect(c, i) => Disconnected(t, c, i, unit)
    case Lookup(i) => Looked(t, i, unit)
    case Done(c) => Unlink(t, c, unit)
    case Expire(i) => Expired(t, i)
  }

  // ----- Rates -----

  const INT_MAX: int := 0x7fff_ffff

  /** Events of this kind for this entry, from position first on. */
  function Events(log: seq<Event>, first: nat, i: string, k: Kind): nat {
    if |log| <= first then 0 else
      var n := |log| - 1;
      Events(log[..n], first, i, k) + if log[n].ident == i && log[n].kind == k then 1 else 0
  }

  function Rate(s: State, i: string, k: Kind): int {
    if i !in s.entries then 0 else
      match s.entries[i]
      case Closed => 0
      case Open(_, first) => var n := Events(s.log, first, i, k); if n < INT_MAX then n else INT_MAX
  }

  lemma EventsNext(log: seq<Event>, first: nat, i: string, k: Kind, e: Event)
    ensures Events(log + [e], first, i, k)
         == if |log| < first then 0 else Events(log, first, i, k) + if e.ident == i && e.kind == k then 1 else 0
  {
    assert (log + [e])[..|log|] == log;
  }

  // ----- What every run keeps -----

  /** The window opened with an event of this entry, and holds only events that are not older than
      the window and not more than one time unit younger. */
  ghost predicate InWindow(log: seq<Event>, i: string, w: Window, unit: int) {
    w.Open? ==>
      && w.first < |log| && log[w.first].ident == i && log[w.first].time == w.start
      && forall j :: w.first <= j < |log| && log[j].ident == i ==> w.start <= log[j].time <= w.start + unit
  }

  ghost predicate Good(s: State, unit: int) {
    && (forall c :: c in s.links ==> s.links[c] in s.entries)
    && (forall i :: i in s.due <==> i in s.entries && Clients(s.links, i) == {})
    && (forall i :: i in s.entries ==> InWindow(s.log, i, s.entries[i], unit))
    && (forall j :: 0 <= j < |s.log| ==> s.log[j].time <= s.clock)
  }

  lemma GoodBump(s: State, i: string, k: Kind, unit: int)
    requires Good(s, unit) && unit >= 0
    ensures var t := Bump(s, i, k, unit);
            && (forall h :: h in t.entries ==> InWindow(t.log, h, t.entries[h], unit))
            && (forall j :: 0 <= j < |t.log| ==> t.log[j].time <= t.clock)
    ensures i in s.entries ==> Good(Bump(s, i, k, unit), unit)
  {
    var t := Bump(s, i, k, unit);
    forall h | h in t.entries ensures InWindow(t.log, h, t.entries[h], unit) {
      if h in s.entries { assert InWindow(s.log, h, s.entries[h], unit); }
    }
  }

  lemma GoodUnlink(s: State, c: int, unit: int)
    requires Good(s, unit)
    ensures Good(Unlink(s, c, unit), unit)
  {
    hide InWindow;
    var t := Unlink(s, c, unit);
    if c in s.links {
      var i := s.links[c];
      forall h ensures h in t.due <==> h in t.entries && Clients(t.links, h) == {} {
        ClientsWithout(s.links, c, h);
        assert c in Clients(s.links, i);
      }
    }
  }

  lemma ClientsWithout(links: map<int, string>, c: int, i: string)
    ensures Clients(links - {c}, i) == Clients(links, i) - {c}
  {
  }

  lemma ClientsWith(links: map<int, string>, c: int, i: string, h: string)
    requires c !in links
    ensures Clients(links[c := i], h) == Clients(links, h) + if h == i then {c} else {}
  {
  }

  lemma GoodConnected(s: State, c: int, i: string, unit: int)
    requires Good(s, unit) && unit >= 0
    ensures Good(Connected(s, c, i, unit), unit)
  {
    hide InWindow;
    GoodBump(s, i, Conn, unit);
    var b := Bump(s, i, Conn, unit);
    var t := Unlink(b, c, unit);
    var u := Link(b, c, i, unit);
    forall h ensures h in u.due <==> h in u.entries && Clients(u.links, h) == {} {
      ClientsWithout(b.links, c, h);
      ClientsWith(t.links, c, i, h);
      if c in b.links { assert c in Clients(b.links, b.links[c]); }
    }
  }

  /** Links lead to known entries, exactly the entries without clients have a timer, and every
      window is fresh; a step keeps all that. */
  lemma GoodStep(s: State, r: Request, now: int, unit: int)
    requires Good(s, unit) && unit >= 0 && s.clock <= now
    ensures Good(Step(s, r, now, unit), unit)
  {
    hide InWindow, Clients;
    var t := s.(clock := now);
    assert Good(t, unit);
    match r
    case Connect(c, i) => GoodConnected(t, c, i, unit);
    case Count(c, i, k) =>
      if i !in t.entries { GoodConnected(t, c, i, unit); }
      GoodBump(if i in t.entries then t else Connected(t, c, i, unit), i, k, unit);
    case Disconnect(c, i) => GoodUnlink(t, c, unit);
    case Lookup(i) =>
      ClosedInWindow(t.log, i, unit);
    case Done(c) => GoodUnlink(t, c, unit);
    case Expire(i) => LinkedIsClient(t.links, i);
  }

  lemma ClosedInWindow(log: seq<Event>, i: string, unit: int)
    ensures InWindow(log, i, Closed, unit)
  {
  }

  lemma LinkedIsClient(links: map<int, string>, i: string)
    ensures forall c :: c in links && links[c] == i ==> c in Clients(links, i)
  {
  }

  function Steps(s: State, rs: seq<(int, Request)>, unit: int): State
    decreases |rs|
  {
    if rs == [] then s else Steps(Step(s, rs[0].1, rs[0].0, unit), rs[1..], unit)
  }

  /** The clock does not run backwards, and started late enough for time zero to be stale. */
  predicate Monotone(clock: int, rs: seq<(int, Request)>, unit: int)
    decreases |rs|
  {
    rs == [] || (clock <= rs[0].0 && unit < rs[0].0 && Monotone(rs[0].0, rs[1..], unit))
  }

  lemma {:induction false} GoodSteps(s: State, rs: seq<(int, Request)>, unit: int)
    requires Good(s, unit) && unit >= 0 && Monotone(s.clock, rs, unit)
    ensures Good(Steps(s, rs, unit), unit)
    decreases |rs|
  {
    if rs != [] {
      GoodStep(s, rs[0].1, rs[0].0, unit);
      assert Step(s, rs[0].1, rs[0].0, unit).clock == rs[0].0;
      GoodSteps(Step(s, rs[0].1, rs[0].0, unit), rs[1..], unit);
    }
  }

  // ----- Rate windows -----

  lemma BumpWindow(s: State, i: string, k: Kind, unit: int)
    requires Good(s, unit) && unit >= 0 && i in s.entries
    ensures var t := Bump(s, i, k, unit);
            && i in t.entries && t.entries[i].Open? && t.entries[i].start <= s.clock <= t.entries[i].start + unit
            && (forall h :: Events(t.log, t.entries[i].first, i, h)
                         == Events(s.log, t.entries[i].first, i, h) + if h == k then 1 else 0)
            && (s.entries[i].Open? && !Stale(s.entries[i], unit, s.clock) ==> t.entries[i] == s.entries[i])
            && (s.entries[i].Closed? || Stale(s.entries[i], unit, s.clock) ==> t.entries[i] == Open(s.clock, |s.log|))
  {
    var t := Bump(s, i, k, unit);
    assert InWindow(s.log, i, s.entries[i], unit);
    forall h ensures Events(t.log, t.entries[i].first, i, h)
                  == Events(s.log, t.entries[i].first, i, h) + if h == k then 1 else 0 {
      EventsNext(s.log, t.entries[i].first, i, h, Event(i, k, s.clock));
    }
  }

  /** An event that is reported was counted in a window that is at most one time unit old; the
      window is not cut short, and a stale one is not continued. */
  lemma CountedWindow(s: State, c: int, i: string, k: Kind, now: int, unit: int)
    requires Good(s, unit) && unit >= 0 && s.clock <= now
    ensures var t := Step(s, Count(c, i, k), now, unit);
            && i in t.entries && t.entries[i].Open?
            && t.entries[i].start <= now <= t.entries[i].start + unit
            && 1 <= Rate(t, i, k)
            && (i in s.entries && s.entries[i].Open? && now <= s.entries[i].start + unit ==>
                  && t.entries[i] == s.entries[i]
                  && forall h :: Events(t.log, t.entries[i].first, i, h)
                              == Events(s.log, s.entries[i].first, i, h) + if h == k then 1 else 0)
            && (i in s.entries && !(s.entries[i].Open? && now <= s.entries[i].start + unit) ==>
                  && t.entries[i].start == now
                  && forall h :: Rate(t, i, h) == if h == k then 1 else 0)
  {
    hide InWindow, Clients, Bump;
    var u := s.(clock := now);
    assert Good(u, unit);
    if i in s.entries {
      BumpWindow(u, i, k, unit);
    } else {
      GoodConnected(u, c, i, unit);
      ConnectedKnows(u, c, i, unit);
      BumpWindow(Connected(u, c, i, unit), i, k, unit);
    }
  }

  lemma ConnectedKnows(s: State, c: int, i: string, unit: int)
    ensures i in Connected(s, c, i, unit).entries && Connected(s, c, i, unit).clock == s.clock
  {
  }

  /** A query that finds a stale window reports nothing, and the next event opens a new one. */
  lemma StaleQuery(s: State, i: string, now: int, c: int, k: Kind, later: int, unit: int)
    requires Good(s, unit) && unit >= 0 && s.clock <= now <= later
    requires i in s.entries && Stale(s.entries[i], unit, now)
    ensures var t := Step(s, Lookup(i), now, unit);
            && (forall h :: Rate(t, i, h) == 0)
            && Step(t, Count(c, i, k), later, unit).entries[i] == Open(later, |s.log|)
            && forall h :: Rate(Step(t, Count(c, i, k), later, unit), i, h) == if h == k then 1 else 0
  {
    GoodStep(s, Lookup(i), now, unit);
    CountedWindow(Step(s, Lookup(i), now, unit), c, i, k, later, unit);
  }

  // ----- Expiry and windows -----

  /** Every window is stale before its entry is due. */
  ghost predicate Tidy(s: State, unit: int) {
    forall i :: i in s.due && i in s.entries && s.entries[i].Open? ==> s.entries[i].start + unit < s.due[i]
  }

  /** Counting an event opens a window for an entry that nobody is linked to, which is due while
      that window is fresh. */
  predicate OpensLate(s: State, i: string, now: int, unit: int) {
    && i in s.entries && i in s.due
    && (s.entries[i].Closed? || Stale(s.entries[i], unit, now))
    && s.due[i] <= now + unit
  }

  /** The client lets go of an entry, as the last one, in the second its window was opened. */
  predicate LeavesFresh(s: State, c: int, now: int) {
    && c in s.links && Clients(s.links, s.links[c]) == {c}
    && s.links[c] in s.entries && s.entries[s.links[c]].Open? && s.entries[s.links[c]].start == now
  }

  predicate Hasty(s: State, r: Request, now: int, unit: int) {
    match r
    case Connect(c, i) => c in s.links && s.links[c] != i && LeavesFresh(s, c, now)
    case Count(c, i, _) => if i in s.entries then OpensLate(s, i, now, unit) else LeavesFresh(s, c, now)
    case Disconnect(c, i) => c in s.links && s.links[c] == i && LeavesFresh(s, c, now)
    case Done(c) => LeavesFresh(s, c, now)
    case Lookup(_) => false
    case Expire(_) => false
  }

  lemma StartPast(s: State, i: string, unit: int)
    requires Good(s, unit) && i in s.entries && s.entries[i].Open?
    ensures s.entries[i].start <= s.clock
  {
    assert InWindow(s.log, i, s.entries[i], unit);
  }

  lemma OnlyClient(links: map<int, string>, c: int)
    requires c in links
    ensures Clients(links - {c}, links[c]) == {} <==> Clients(links, links[c]) == {c}
  {
    ClientsWithout(links, c, links[c]);
    assert c in Clients(links, links[c]);
  }

  lemma TidyUnlink(s: State, c: int, unit: int)
    requires Good(s, unit) && Tidy(s, unit)
    ensures Tidy(Unlink(s, c, unit), unit) <==> !LeavesFresh(s, c, s.clock)
  {
    if c in s.links {
      var i := s.links[c];
      OnlyClient(s.links, c);
      if s.entries[i].Open? { StartPast(s, i, unit); }
      hide Good, Clients;
      var t := Unlink(s, c, unit);
      if LeavesFresh(s, c, s.clock) { assert i in t.due && t.due[i] == s.clock + unit; }
    }
  }

  lemma TidyConnected(s: State, c: int, i: string, unit: int)
    requires Good(s, unit) && unit >= 0 && Tidy(s, unit)
    ensures Tidy(Connected(s, c, i, unit), unit) <==> !(c in s.links && s.links[c] != i && LeavesFresh(s, c, s.clock))
    ensures i !in Connected(s, c, i, unit).due && Connected(s, c, i, unit).clock == s.clock
  {
    var t := Connected(s, c, i, unit);
    if c in s.links {
      var h := s.links[c];
      OnlyClient(s.links, c);
      if s.entries[h].Open? { StartPast(s, h, unit); }
      hide Good, Clients;
      if h != i && LeavesFresh(s, c, s.clock) { assert h in t.due && t.due[h] == s.clock + unit && t.entries[h] == s.entries[h]; }
    }
  }

  lemma TidyBump(s: State, i: string, k: Kind, unit: int)
    requires Good(s, unit) && Tidy(s, unit) && unit >= 0 && i in s.entries
    ensures Tidy(Bump(s, i, k, unit), unit) <==> !OpensLate(s, i, s.clock, unit)
  {
    hide Clients;
    var t := Bump(s, i, k, unit);
    if OpensLate(s, i, s.clock, unit) { assert t.entries[i] == Open(s.clock, |s.log|); }
  }

  lemma TidyRest(s: State, i: string, unit: int)
    requires Tidy(s, unit)
    ensures Tidy(Looked(s, i, unit), unit) && Tidy(Expired(s, i), unit)
  {
  }

  lemma TidyTick(s: State, now: int, unit: int)
    requires Good(s, unit) && Tidy(s, unit) && s.clock <= now
    ensures Good(s.(clock := now), unit) && Tidy(s.(clock := now), unit)
  {
    hide InWindow;
  }

  lemma LinkKnown(s: State, c: int, i: string, unit: int)
    requires Good(s, unit) && i !in s.entries && c in s.links
    ensures s.links[c] != i
  {
    hide InWindow, Clients;
  }

  /** A step leaves a window that can be fresh when its entry is due exactly if it is hasty. */
  lemma TidyIff(s: State, r: Request, now: int, unit: int)
    requires Good(s, unit) && unit >= 0 && s.clock <= now && Tidy(s, unit)
    ensures Tidy(Step(s, r, now, unit), unit) <==> !Hasty(s, r, now, unit)
  {
    hide Good, Unlink, Bump, Connected, Looked, Expired, Tidy, Clients;
    var u := s.(clock := now);
    TidyTick(s, now, unit);
    match r
    case Connect(c, i) => TidyConnected(u, c, i, unit);
    case Count(c, i, k) =>
      if i in s.entries {
        TidyBump(u, i, k, unit);
      } else {
        TidyConnected(u, c, i, unit);
        if c in s.links { LinkKnown(u, c, i, unit); }
        TidyCounted(u, c, i, k, unit);
      }
    case Disconnect(c, i) => TidyUnlink(u, c, unit);
    case Lookup(i) => TidyRest(u, i, unit);
    case Done(c) => TidyUnlink(u, c, unit);
    case Expire(i) => TidyRest(u, i, unit);
  }

  /** The first event of an entry is counted while the client is linked to it. */
  lemma TidyCounted(s: State, c: int, i: string, k: Kind, unit: int)
    ensures var t := Connected(s, c, i, unit); Tidy(Bump(t, i, k, unit), unit) <==> Tidy(t, unit)
  {
    hide Clients;
    var t := Connected(s, c, i, unit);
    assert i !in t.due;
    var u := Bump(t, i, k, unit);
    assert forall h :: h in t.due ==> (h in t.entries <==> h in u.entries) && (h in t.entries ==> u.entries[h] == t.entries[h]);
  }

  /** The timer of the entry fires while its window is fresh: what was counted is forgotten. */
  predicate Forgets(s: State, i: string, now: int, unit: int) {
    i in s.due && s.due[i] <= now && i in s.entries && s.entries[i].Open? && !Stale(s.entries[i], unit, now)
  }

  lemma TidyKeeps(s: State, unit: int)
    requires Tidy(s, unit)
    ensures forall i, now :: !Forgets(s, i, now, unit)
  {
  }

  /** After a hasty request there is a time at which the timer can do this. */
  lemma HastyForgets(s: State, r: Request, now: int, unit: int) returns (i: string, later: int)
    requires Good(s, unit) && unit >= 0 && s.clock <= now && Tidy(s, unit) && Hasty(s, r, now, unit)
    ensures now <= later && Forgets(Step(s, r, now, unit), i, later, unit)
  {
    hide Clients, InWindow;
    var t := Step(s, r, now, unit);
    if r.Count? && r.ident in s.entries {
      i, later := r.ident, if s.due[r.ident] < now then now else s.due[r.ident];
    } else {
      i, later := s.links[r.client], now + unit;
      OnlyClient(s.links, r.client);
    }
  }

  predicate NoneHasty(s: State, rs: seq<(int, Request)>, unit: int)
    decreases |rs|
  {
    rs == [] || (!Hasty(s, rs[0].1, rs[0].0, unit) && NoneHasty(Step(s, rs[0].1, rs[0].0, unit), rs[1..], unit))
  }

  /** In no state of the run, from its second one on, can a timer that fires forget a fresh window. */
  ghost predicate NeverForgets(s: State, rs: seq<(int, Request)>, unit: int)
    decreases |rs|
  {
    rs == [] ||
      var t := Step(s, rs[0].1, rs[0].0, unit);
      (forall i, now :: t.clock <= now ==> !Forgets(t, i, now, unit)) && NeverForgets(t, rs[1..], unit)
  }

  /** Over every run: no timer, whenever it fires, can forget a fresh window, exactly if no request
      of the run is hasty. */
  lemma {:induction false} NeverForgetsIff(s: State, rs: seq<(int, Request)>, unit: int)
    requires Good(s, unit) && unit >= 0 && Monotone(s.clock, rs, unit) && Tidy(s, unit)
    ensures NeverForgets(s, rs, unit) <==> NoneHasty(s, rs, unit)
    decreases |rs|
  {
    hide Good, Tidy, Hasty, Step, Forgets;
    if rs != [] {
      var now, r := rs[0].0, rs[0].1;
      var t := Step(s, r, now, unit);
      TidyIff(s, r, now, unit);
      GoodStep(s, r, now, unit);
      StepClock(s, r, now, unit);
      if Hasty(s, r, now, unit) {
        var i, later := HastyForgets(s, r, now, unit);
        assert t.clock <= later && Forgets(t, i, later, unit);
      } else {
        TidyKeeps(t, unit);
        NeverForgetsIff(t, rs[1..], unit);
      }
    }
  }

  lemma StepClock(s: State, r: Request, now: int, unit: int)
    ensures Step(s, r, now, unit).clock == now
  {
    hide Clients;
  }

  /** In particular over every run of the server from its start. */
  lemma StartForgetsIff(rs: seq<(int, Request)>, unit: int)
    requires unit >= 0 && Monotone(START.clock, rs, unit)
    ensures NeverForgets(START, rs, unit) <==> NoneHasty(START, rs, unit)
  {
    NeverForgetsIff(START, rs, unit);
  }

  const LATE: seq<(int, Request)> :=
    [(100, Connect(1, "a")), (130, Disconnect(1, "a")), (180, Count(1, "a", Mail)), (190, Expire("a")), (195, Count(1, "a", Mail))]

  const LATE_LOG := [Event("a", Conn, 100), Event("a", Mail, 180), Event("a", Conn, 195), Event("a", Mail, 195)]

  lemma LateSteps()
    ensures Steps(START, LATE, 60) == State(LATE_LOG, map["a" := Open(195, 2)], map[1 := "a"], map[], 195)
  {
    var s1 := State(LATE_LOG[..1], map["a" := Open(100, 0)], map[1 := "a"], map[], 100);
    var s2 := State(LATE_LOG[..1], map["a" := Open(100, 0)], map[], map["a" := 190], 130);
    var s3 := State(LATE_LOG[..2], map["a" := Open(180, 1)], map[], map["a" := 190], 180);
    var s4 := State(LATE_LOG[..2], map[], map[], map[], 190);
    assert Step(START, LATE[0].1, 100, 60) == s1;
    assert Step(s1, LATE[1].1, 130, 60) == s2;
    assert Step(s2, LATE[2].1, 180, 60) == s3;
    assert Step(s3, LATE[3].1, 190, 60) == s4;
  }

  /** Two messages 15 seconds apart, with a time unit of 60 seconds, of which only the last one is
      reported: the entry expired in between, 60 seconds after its last disconnect. */
  lemma LateExample()
    ensures Monotone(START.clock, LATE, 60)
    ensures Rate(Steps(START, LATE, 60), "a", Mail) == 1
  {
    hide Step;
    LateSteps();
    EventsNext(LATE_LOG[..2], 2, "a", Mail, LATE_LOG[2]);
    assert LATE_LOG[..2] + [LATE_LOG[2]] == LATE_LOG[..3];
    EventsNext(LATE_LOG[..3], 2, "a", Mail, LATE_LOG[3]);
    assert LATE_LOG[..3] + [LATE_LOG[3]] == LATE_LOG;
  }

  const SHORT: seq<(int, Request)> := [(100, Connect(1, "a")), (100, Disconnect(1, "a"))]

  lemma ShortSteps()
    ensures Steps(START, SHORT, 60) == State([Event("a", Conn, 100)], map["a" := Open(100, 0)], map[], map["a" := 160], 100)
  {
    var log := [Event("a", Conn, 100)];
    var s1 := State(log, map["a" := Open(100, 0)], map[1 := "a"], map[], 100);
    var s2 := State(log, map["a" := Open(100, 0)], map[], map["a" := 160], 100);
    assert Step(START, SHORT[0].1, 100, 60) == s1;
    assert Step(s1, SHORT[1].1, 100, 60) == s2;
  }

  /** A connection that ends in the second it began, and a time unit of 60 seconds: at 160 seconds
      a query would still report it, but the timer that fires in that second forgets it. */
  lemma ShortExample()
    ensures Monotone(START.clock, SHORT, 60)
    ensures var s := Steps(START, SHORT, 60);
            && s.clock <= 160
            && Rate(Step(s, Lookup("a"), 160, 60), "a", Conn) == 1
            && Rate(Step(s, Expire("a"), 160, 60), "a", Conn) == 0
  {
    hide Steps, Clients;
    ShortSteps();
    var log := [Event("a", Conn, 100)];
    EventsNext([], 0, "a", Conn, log[0]);
    assert [] + [log[0]] == log;
  }

  // ----- What the model counts -----

  /** Positions in the log of the events of this kind in the window. */
  function Counting(log: seq<Event>, first: nat, i: string, k: Kind): set<nat> {
    set j: nat | first <= j < |log| && log[j].ident == i && log[j].kind == k
  }

  lemma {:induction false} EventsAre(log: seq<Event>, first: nat, i: string, k: Kind)
    ensures Events(log, first, i, k) == |Counting(log, first, i, k)|
    decreases |log|
  {
    if |log| <= first {
      assert Counting(log, first, i, k) == {};
    } else {
      var n := |log| - 1;
      EventsAre(log[..n], first, i, k);
      CountingStep(log, first, i, k);
      hide Counting;
    }
  }

  lemma CountingStep(log: seq<Event>, first: nat, i: string, k: Kind)
    requires first < |log|
    ensures var n := |log| - 1; var before := Counting(log[..n], first, i, k);
            && n !in before
            && Counting(log, first, i, k) == if log[n].ident == i && log[n].kind == k then before + {n} else before
  {
    var n := |log| - 1;
    var c, before := Counting(log, first, i, k), Counting(log[..n], first, i, k);
    forall j: nat | j < n ensures j in c <==> j in before { if j < n { assert log[..n][j] == log[j]; } }
  }

  /** A rate is the number of events of its kind in the window, or the largest int if there are more. */
  lemma RateIs(s: State, i: string, k: Kind)
    requires i in s.entries
    ensures s.entries[i].Closed? ==> Rate(s, i, k) == 0
    ensures s.entries[i].Open? ==>
              var n := |Counting(s.log, s.entries[i].first, i, k)|;
              Rate(s, i, k) == if n <= 2147483647 then n else 2147483647
  {
    if s.entries[i].Open? { EventsAre(s.log, s.entries[i].first, i, k); }
  }

  /** Which client is linked to which entry after a request, and what was logged. */
  lemma LinksAfter(s: State, r: Request, now: int, unit: int)
    ensures var t := Step(s, r, now, unit);
            match r
            case Connect(c, i) => t.links == s.links[c := i] && t.log == s.log + [Event(i, Conn, now)]
            case Count(c, i, k) =>
              && t.links == (if i in s.entries then s.links else s.links[c := i])
              && t.log == s.log + (if i in s.entries then [] else [Event(i, Conn, now)]) + [Event(i, k, now)]
            case Disconnect(c, i) => t.links == (if c in s.links && s.links[c] == i then s.links - {c} else s.links) && t.log == s.log
            case Done(c) => t.links == s.links - {c} && t.log == s.log
            case Lookup(_) => t.links == s.links && t.log == s.log
            case Expire(_) => t.links == s.links && t.log == s.log
  {
  }

  /** An entry is known from its first event until it expires, which it does when nobody is linked to
      it: one time unit after the last client let go. */
  lemma DueAfter(s: State, r: Request, now: int, unit: int, h: string)
    requires Good(s, unit) && unit >= 0 && s.clock <= now
    ensures var t := Step(s, r, now, unit);
            && (h in t.due && h !in s.due ==> t.due[h] == now + unit)
            && (h in t.due && h in s.due ==> t.due[h] == s.due[h])
            && (h in s.entries && h !in t.entries <==> r == Expire(h) && h in s.due && s.due[h] <= now)
  {
    hide InWindow;
    DueKnown(s, unit);
    match r
    case Connect(c, i) => DueLinked(s.(clock := now), c, i, unit, h);
    case Count(c, i, k) => if i !in s.entries { DueLinked(s.(clock := now), c, i, unit, h); }
    case Disconnect(c, i) => DueUnlinked(s.(clock := now), c, unit, h);
    case Done(c) => DueUnlinked(s.(clock := now), c, unit, h);
    case Lookup(_) =>
    case Expire(_) =>
  }

  lemma DueKnown(s: State, unit: int)
    requires Good(s, unit)
    ensures forall i :: i in s.due ==> i in s.entries && forall c :: c in s.links ==> s.links[c] != i
  {
    hide InWindow;
    forall i, c | i in s.due && c in s.links ensures s.links[c] != i { LinkedIsClient(s.links, i); }
  }

  lemma DueUnlinked(s: State, c: int, unit: int, h: string)
    requires forall i :: i in s.due ==> forall d :: d in s.links ==> s.links[d] != i
    ensures var t := Unlink(s, c, unit);
            && t.entries == s.entries && (h in s.due ==> h in t.due && t.due[h] == s.due[h])
            && (h in t.due && h !in s.due ==> t.due[h] == s.clock + unit)
  {
    hide Clients;
  }

  lemma DueLinked(s: State, c: int, i: string, unit: int, h: string)
    requires forall e :: e in s.due ==> forall d :: d in s.links ==> s.links[d] != e
    ensures var t := Connected(s, c, i, unit);
            && (h in t.due && h !in s.due ==> t.due[h] == s.clock + unit)
            && (h in t.due && h in s.due ==> t.due[h] == s.due[h])
            && t.entries.Keys == s.entries.Keys + {i}
  {
    DueUnlinked(Bump(s, i, Conn, unit), c, unit, h);
    hide Clients;
  }
}
