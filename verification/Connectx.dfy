/** The depth-first walk over the PCI buses behind one root bridge (`walk` in
    `src/connectx.rs`). */
module Connectx {
  import opened Bytes

  type Bus = b: nat | b < 256

  /** A configuration register, by where it is. */
  datatype Reg = Reg(bus: Bus, dev: nat, fun: nat, reg: nat)

  type Dword = v: nat | v < U32_LIMIT

  /** Configuration space: a register may be refused, and gives the same answer
      each time. */
  type Space = Reg -> Option<Dword>

  datatype Function = Function(bus: Bus, dev: nat, fun: nat, vendor: nat, device: nat)

  const STACK: nat := 256

  function Id(read: Space, bus: Bus, dev: nat, fun: nat): Option<Dword> {
    read(Reg(bus, dev, fun, 0))
  }

  /** No function answers there. */
  predicate Nobody(id: Dword) {
    id % 0x1_0000 == 0xFFFF || id % 0x1_0000 == 0
  }

  function Header(read: Space, bus: Bus, dev: nat, fun: nat): nat {
    var v := read(Reg(bus, dev, fun, 0x0C));
    if v.None? then 0 else v.value / 0x1_0000 % 0x100
  }

  /** The bus a bridge leads to, if it is a bridge and has been given one. */
  function Secondary(read: Space, bus: Bus, dev: nat, fun: nat): Option<Bus> {
    var v := read(Reg(bus, dev, fun, 0x18));
    if Header(read, bus, dev, fun) % 0x80 != 1 || v.None? || v.value / 0x100 % 0x100 == 0 then None
    else Some(v.value / 0x100 % 0x100)
  }

  /** Function 0 says whether a device's others are looked at: they are when its
      id is refused, and when it has several functions. */
  predicate Alone(read: Space, bus: Bus, dev: nat) {
    var id := Id(read, bus, dev, 0);
    id.Some? && (Nobody(id.value) || Header(read, bus, dev, 0) < 0x80)
  }

  /** The `k`th place on a bus: function `k % 8` of device `k / 8`. */
  predicate Present(read: Space, bus: Bus, k: nat) {
    var id := Id(read, bus, k / 8, k % 8);
    id.Some? && !Nobody(id.value) && (k % 8 == 0 || !Alone(read, bus, k / 8))
  }

  function FunctionAt(read: Space, bus: Bus, k: nat): Function
    requires Present(read, bus, k)
  {
    var id := Id(read, bus, k / 8, k % 8).value;
    Function(bus, k / 8, k % 8, id % 0x1_0000, id / 0x1_0000)
  }

  /** The functions in a bus's first `k` places. */
  function Found(read: Space, bus: Bus, k: nat): seq<Function> {
    if k == 0 then []
    else Found(read, bus, k - 1) + if Present(read, bus, k - 1) then [FunctionAt(read, bus, k - 1)] else []
  }

  /** The bridge in the `k`th place leads to `c`. */
  predicate LeadsAt(read: Space, bus: Bus, k: nat, c: Bus) {
    k < 256 && Present(read, bus, k) && Secondary(read, bus, k / 8, k % 8) == Some(c)
  }

  /** The buses behind the bridges in the first `k` places, but those seen. */
  function Behind(read: Space, bus: Bus, seen: set<Bus>, k: nat): (cs: seq<Bus>)
    ensures |cs| <= k
  {
    if k == 0 then []
    else
      var to := Secondary(read, bus, (k - 1) / 8, (k - 1) % 8);
      Behind(read, bus, seen, k - 1)
      + if Present(read, bus, k - 1) && to.Some? && to.value !in seen then [to.value] else []
  }

  // ------------------------------------------------------ what is reachable

  ghost predicate Leads(read: Space, b: Bus, c: Bus) {
    exists k :: LeadsAt(read, b, k, c)
  }

  ghost predicate IsPath(read: Space, p: seq<Bus>) {
    |p| > 0 && forall i :: 0 <= i < |p| - 1 ==> Leads(read, p[i], p[i + 1])
  }

  ghost predicate Reachable(read: Space, start: Bus, b: Bus) {
    exists p :: IsPath(read, p) && p[0] == start && p[|p| - 1] == b
  }

  /** No two bridges on the reachable buses name the same secondary bus. */
  ghost predicate OneBridgeEach(read: Space, start: Bus) {
    forall a, j, b, k, c ::
      Reachable(read, start, a) && Reachable(read, start, b) && LeadsAt(read, a, j, c) && LeadsAt(read, b, k, c)
      ==> a == b && j == k
  }

  lemma ReachesItself(read: Space, start: Bus)
    ensures Reachable(read, start, start)
  {
    assert IsPath(read, [start]);
  }

  lemma ReachesOn(read: Space, start: Bus, b: Bus, c: Bus)
    requires Reachable(read, start, b) && Leads(read, b, c)
    ensures Reachable(read, start, c)
  {
    var p :| IsPath(read, p) && p[0] == start && p[|p| - 1] == b;
    assert IsPath(read, p + [c]);
  }

  /** A set with the start in it that no bridge leads out of has all there is. */
  lemma {:induction false} ClosedHasAll(read: Space, p: seq<Bus>, s: set<Bus>)
    requires IsPath(read, p) && p[0] in s
    requires forall b, c :: b in s && Leads(read, b, c) ==> c in s
    ensures p[|p| - 1] in s
  {
    if |p| > 1 {
      var before := p[..|p| - 1];
      assert IsPath(read, before);
      ClosedHasAll(read, before, s);
      assert Leads(read, p[|p| - 2], p[|p| - 1]);
    }
  }

  // --------------------------------------------------------------- the walk

  /** What is scanned, in order, and the buses for which the stack was full. */
  datatype Trip = Trip(order: seq<Bus>, dropped: set<Bus>)

  function Fits(todo: seq<Bus>): seq<Bus> {
    if |todo| <= STACK then todo else todo[..STACK]
  }

  function Lost(todo: seq<Bus>): set<Bus> {
    if |todo| <= STACK then {} else set c | c in todo[STACK..]
  }

  /** The walk, with these seen and these on the stack. */
  function From(read: Space, seen: set<Bus>, todo: seq<Bus>): Trip
    decreases 256 - |seen|, |todo|
  {
    if todo == [] then Trip([], {})
    else
      var bus, rest := todo[|todo| - 1], todo[..|todo| - 1];
      if bus in seen then From(read, seen, rest)
      else
        OneMoreSeen(seen, bus);
        var more := rest + Behind(read, bus, seen + {bus}, 256);
        var trip := From(read, seen + {bus}, Fits(more));
        Trip([bus] + trip.order, Lost(more) + trip.dropped)
  }

  lemma OneMoreSeen(seen: set<Bus>, bus: Bus)
    requires bus !in seen
    ensures |seen| < |seen + {bus}| <= 256
  {
    AllBuses(seen + {bus}, 256);
  }

  lemma {:induction false} AllBuses(s: set<Bus>, n: nat)
    requires forall b :: b in s ==> b < n
    ensures |s| <= n
  {
    if n > 0 && (n - 1) in s {
      AllBuses(s - {n - 1}, n - 1);
    } else if n > 0 {
      AllBuses(s, n - 1);
    } else {
      assert s == {};
    }
  }

  /** All the functions of the buses of a trip, in order. */
  function AllFound(read: Space, order: seq<Bus>): seq<Function> {
    if order == [] then [] else Found(read, order[0], 256) + AllFound(read, order[1..])
  }

  function SeenIn(seen: seq<bool>): set<Bus> {
    set b: Bus | b < |seen| && seen[b]
  }

  /** The first `k` places of the bus have been looked at. */
  ghost predicate Scanned(read: Space, bus: Bus, seen: set<Bus>, k: nat, was: seq<Bus>, todo: seq<Bus>,
                          had: seq<Function>, found: seq<Function>) {
    found == had + Found(read, bus, k) && todo == Fits(was + Behind(read, bus, seen, k))
  }

  lemma NotPresent(read: Space, bus: Bus, seen: set<Bus>, k: nat, was: seq<Bus>, todo: seq<Bus>, had: seq<Function>,
                   found: seq<Function>)
    requires Scanned(read, bus, seen, k, was, todo, had, found) && !Present(read, bus, k)
    ensures Scanned(read, bus, seen, k + 1, was, todo, had, found)
  {
    hide Fits, Present, FunctionAt, Secondary;
    assert Found(read, bus, k) + [] == Found(read, bus, k);
    assert Behind(read, bus, seen, k) + [] == Behind(read, bus, seen, k);
  }

  /** The rest of a device that is alone in its place. */
  lemma {:induction false} RestIsEmpty(read: Space, bus: Bus, seen: set<Bus>, dev: nat, fun: nat, was: seq<Bus>,
                                       todo: seq<Bus>, had: seq<Function>, found: seq<Function>)
    requires 1 <= fun <= 8 && Scanned(read, bus, seen, dev * 8 + fun, was, todo, had, found) && Alone(read, bus, dev)
    ensures Scanned(read, bus, seen, dev * 8 + 8, was, todo, had, found)
    decreases 8 - fun
  {
    hide Scanned, Alone;
    if fun < 8 {
      assert !Present(read, bus, dev * 8 + fun);
      NotPresent(read, bus, seen, dev * 8 + fun, was, todo, had, found);
      RestIsEmpty(read, bus, seen, dev, fun + 1, was, todo, had, found);
    }
  }

  function PushedFor(to: Option<Bus>, seen: set<Bus>): seq<Bus> {
    if to.Some? && to.value !in seen then [to.value] else []
  }

  lemma OnePresent(read: Space, bus: Bus, seen: set<Bus>, k: nat, was: seq<Bus>, todo: seq<Bus>, had: seq<Function>,
                   found: seq<Function>, next: seq<Bus>)
    requires Scanned(read, bus, seen, k, was, todo, had, found) && Present(read, bus, k)
    requires next == Fits(todo + PushedFor(Secondary(read, bus, k / 8, k % 8), seen))
    ensures Scanned(read, bus, seen, k + 1, was, next, had, found + [FunctionAt(read, bus, k)])
  {
    hide Fits, Present, FunctionAt, Secondary;
    var p := PushedFor(Secondary(read, bus, k / 8, k % 8), seen);
    var b := Behind(read, bus, seen, k);
    assert Behind(read, bus, seen, k + 1) == b + p;
    FitsAgain(was + b, p);
    assert (was + b) + p == was + (b + p);
    assert had + Found(read, bus, k) + [FunctionAt(read, bus, k)] == had
           + (Found(read, bus, k) + [FunctionAt(read, bus, k)]);
  }

  lemma FitsAgain(a: seq<Bus>, b: seq<Bus>)
    ensures Fits(Fits(a) + b) == Fits(a + b)
  {
  }

  /** A bridge's secondary bus goes on the stack, unless it was seen or there is
      no room. */
  method Follow(read: Space, bus: Bus, k: nat, header: nat, seen: array<bool>, stack: array<Bus>, depth: nat)
    returns (end: nat)
    requires seen.Length == 256 && stack.Length == STACK && depth <= STACK && header == Header(read, bus, k / 8, k % 8)
    modifies stack
    ensures end <= STACK
    ensures stack[..end] == Fits(old(stack[..depth]) + PushedFor(Secondary(read, bus, k / 8, k % 8), SeenIn(seen[..])))
  {
    hide Header;
    end := depth;
    ghost var was := stack[..depth];
    assert was + [] == was;
    if header % 0x80 == 1 {
      var v := read(Reg(bus, k / 8, k % 8, 0x18));
      if v.Some? {
        var secondary := v.value / 0x100 % 0x100;
        if secondary != 0 && !seen[secondary] && end < STACK {
          stack[end] := secondary;
          end := end + 1;
          assert stack[..end] == was + [secondary];
        }
      }
    }
  }

  /** A device, function by function. */
  method ScanDevice(read: Space, bus: Bus, dev: nat, seen: array<bool>, stack: array<Bus>, depth: nat,
                    ghost was: seq<Bus>, ghost had: seq<Function>, sofar: seq<Function>)
    returns (end: nat, found: seq<Function>)
    requires seen.Length == 256 && stack.Length == STACK && depth <= STACK
    requires Scanned(read, bus, SeenIn(seen[..]), dev * 8, was, stack[..depth], had, sofar)
    modifies stack
    ensures end <= STACK
    ensures Scanned(read, bus, SeenIn(seen[..]), dev * 8 + 8, was, stack[..end], had, found)
  {
    hide Scanned, Fits, PushedFor, SeenIn, Secondary;
    ghost var s := SeenIn(seen[..]);
    end, found := depth, sofar;
    var fun := 0;
    while fun < 8
      invariant fun <= 8 && end <= STACK && SeenIn(seen[..]) == s
      invariant Scanned(read, bus, s, dev * 8 + fun, was, stack[..end], had, found)
      invariant fun > 0 ==> !Alone(read, bus, dev)
    {
      ghost var k := dev * 8 + fun;
      var id := Id(read, bus, dev, fun);
      if id.None? {
        NotPresent(read, bus, s, k, was, stack[..end], had, found);
        fun := fun + 1;
        continue;
      }
      if Nobody(id.value) {
        NotPresent(read, bus, s, k, was, stack[..end], had, found);
        if fun == 0 {
          RestIsEmpty(read, bus, s, dev, 1, was, stack[..end], had, found);
          break;
        }
        fun := fun + 1;
        continue;
      }
      var header := Header(read, bus, dev, fun);
      ghost var todo := stack[..end];
      end := Follow(read, bus, dev * 8 + fun, header, seen, stack, end);
      OnePresent(read, bus, s, k, was, todo, had, found, stack[..end]);
      found := found + [Function(bus, dev, fun, id.value % 0x1_0000, id.value / 0x1_0000)];
      if fun == 0 && header < 0x80 {
        RestIsEmpty(read, bus, s, dev, 1, was, stack[..end], had, found);
        break;
      }
      fun := fun + 1;
    }
  }

  /** Everything on one bus: its functions are reported, and the buses behind its
      bridges go on the stack while there is room. */
  method ScanBus(read: Space, bus: Bus, seen: array<bool>, stack: array<Bus>, depth: nat, had: seq<Function>)
    returns (end: nat, found: seq<Function>)
    requires seen.Length == 256 && stack.Length == STACK && depth <= STACK
    modifies stack
    ensures end <= STACK && found == had + Found(read, bus, 256)
    ensures stack[..end] == Fits(old(stack[..depth]) + Behind(read, bus, SeenIn(seen[..]), 256))
  {
    hide Found, Behind, Secondary, SeenIn;
    ghost var was := stack[..depth];
    end, found := depth, had;
    assert Scanned(read, bus, SeenIn(seen[..]), 0, was, stack[..end], had, found) by {
      NothingScanned(read, bus, SeenIn(seen[..]), was, had);
    }
    for dev := 0 to 32
      invariant end <= STACK && Scanned(read, bus, SeenIn(seen[..]), dev * 8, was, stack[..end], had, found)
    {
      end, found := ScanDevice(read, bus, dev, seen, stack, end, was, had, found);
    }
  }

  lemma NothingScanned(read: Space, bus: Bus, seen: set<Bus>, was: seq<Bus>, had: seq<Function>)
    requires |was| <= STACK
    ensures Scanned(read, bus, seen, 0, was, was, had, had)
  {
    assert was + [] == was;
  }

  /** Everything behind one root bridge whose buses begin at `start`. */
  method Walk(read: Space, start: Bus) returns (found: seq<Function>)
    ensures found == AllFound(read, From(read, {}, [start]).order)
  {
    hide AllFound, Behind, Found, Fits, Lost, From, SeenIn;
    var seen := new bool[256](_ => false);
    var stack := new Bus[STACK](_ => 0);
    stack[0] := start;
    var depth := 1;
    found := [];
    ghost var s: set<Bus>, done: seq<Bus>, lost: set<Bus> := {}, [], {};
    NothingSeen(seen[..]);
    NothingFound(read);
    assert stack[..1] == [start];
    while depth > 0
      invariant 0 <= depth <= STACK
      invariant s == SeenIn(seen[..]) && found == AllFound(read, done)
      invariant OnTheWay(read, start, s, stack[..depth], done, lost)
      decreases 256 - |s|, depth
    {
      ghost var todo, was := stack[..depth], seen[..];
      depth := depth - 1;
      var bus := stack[depth];
      assert todo[..|todo| - 1] == stack[..depth] && bus == todo[|todo| - 1];
      IsSeen(was, bus);
      OneStep(read, start, s, todo, done, lost);
      if seen[bus] {
        continue;
      }
      OneMoreSeen(s, bus);
      seen[bus] := true;
      ghost var more := todo[..|todo| - 1] + Behind(read, bus, s + {bus}, 256);
      depth, found := ScanBus(read, bus, seen, stack, depth, found);
      FoundOneMore(read, done, bus);
      s, done, lost := s + {bus}, done + [bus], lost + Lost(more);
    }
    assert stack[..depth] == [];
    NothingToDo(read, s);
    assert done + [] == done;
  }

  /** What has been done and what is on the stack make up the whole walk. */
  ghost predicate OnTheWay(read: Space, start: Bus, s: set<Bus>, todo: seq<Bus>, done: seq<Bus>, lost: set<Bus>) {
    var rest := From(read, s, todo);
    From(read, {}, [start]) == Trip(done + rest.order, lost + rest.dropped)
  }

  lemma NothingSeen(seen: seq<bool>)
    requires forall b :: 0 <= b < |seen| ==> !seen[b]
    ensures SeenIn(seen) == {}
  {
  }

  lemma IsSeen(seen: seq<bool>, bus: Bus)
    requires |seen| == 256
    ensures bus in SeenIn(seen) <==> seen[bus]
    ensures SeenIn(seen[bus := true]) == SeenIn(seen) + {bus}
  {
  }

  lemma OneStep(read: Space, start: Bus, s: set<Bus>, todo: seq<Bus>, done: seq<Bus>, lost: set<Bus>)
    requires OnTheWay(read, start, s, todo, done, lost) && todo != []
    ensures var bus, rest := todo[|todo| - 1], todo[..|todo| - 1];
            var more := rest + Behind(read, bus, s + {bus}, 256);
            if bus in s then OnTheWay(read, start, s, rest, done, lost)
            else OnTheWay(read, start, s + {bus}, Fits(more), done + [bus], lost + Lost(more))
  {
    hide Behind, Fits, Lost;
    var bus, rest := todo[|todo| - 1], todo[..|todo| - 1];
    if bus !in s {
      OneMoreSeen(s, bus);
      var more := rest + Behind(read, bus, s + {bus}, 256);
      var trip := From(read, s + {bus}, Fits(more));
      assert done + ([bus] + trip.order) == done + [bus] + trip.order;
      assert lost + (Lost(more) + trip.dropped) == lost + Lost(more) + trip.dropped;
    }
  }

  lemma NothingToDo(read: Space, s: set<Bus>)
    ensures From(read, s, []) == Trip([], {})
  {
  }

  lemma NothingFound(read: Space)
    ensures AllFound(read, []) == []
  {
  }

  lemma {:induction false} FoundOneMore(read: Space, order: seq<Bus>, bus: Bus)
    ensures AllFound(read, order + [bus]) == AllFound(read, order) + Found(read, bus, 256)
  {
    hide Found;
    if order == [] {
      assert (order + [bus])[1..] == [];
    } else {
      assert (order + [bus])[1..] == order[1..] + [bus];
      FoundOneMore(read, order[1..], bus);
    }
  }

  // ------------------------------------------------------------- properties

  lemma {:induction false} BehindAreBehind(read: Space, bus: Bus, seen: set<Bus>, k: nat)
    requires k <= 256
    ensures forall c :: c in Behind(read, bus, seen, k) ==>
              c !in seen && exists j: nat :: j < k && LeadsAt(read, bus, j, c)
    ensures forall j: nat, c :: j < k && LeadsAt(read, bus, j, c) && c !in seen ==> c in Behind(read, bus, seen, k)
  {
    hide Present, Secondary;
    if k > 0 {
      BehindAreBehind(read, bus, seen, k - 1);
      var to := Secondary(read, bus, (k - 1) / 8, (k - 1) % 8);
      assert to.Some? && Present(read, bus, k - 1) ==> LeadsAt(read, bus, k - 1, to.value);
    }
  }

  /** Each bus is scanned at most once, and only if it can be reached. */
  lemma {:induction false} ScansOnceWhatIsReachable(read: Space, start: Bus, seen: set<Bus>, todo: seq<Bus>)
    requires forall c :: c in todo ==> Reachable(read, start, c)
    ensures var trip := From(read, seen, todo);
            && NoRepeats(trip.order)
            && (forall b :: b in trip.order ==> b !in seen && Reachable(read, start, b))
            && (forall b :: b in trip.dropped ==> Reachable(read, start, b))
    decreases 256 - |seen|, |todo|
  {
    hide Reachable, Behind, LeadsAt;
    if todo != [] {
      var bus, rest := todo[|todo| - 1], todo[..|todo| - 1];
      if bus in seen {
        ScansOnceWhatIsReachable(read, start, seen, rest);
      } else {
        OneMoreSeen(seen, bus);
        var behind := Behind(read, bus, seen + {bus}, 256);
        BehindAreBehind(read, bus, seen + {bus}, 256);
        forall c | c in behind
          ensures Reachable(read, start, c)
        {
          assert Leads(read, bus, c);
          ReachesOn(read, start, bus, c);
        }
        ScansOnceWhatIsReachable(read, start, seen + {bus}, Fits(rest + behind));
      }
    }
  }

  /** Whatever was on the stack is scanned, and so is whatever a bridge on a
      scanned bus leads to, unless the stack was full for it. */
  lemma {:induction false} ScansWhatItMeets(read: Space, seen: set<Bus>, todo: seq<Bus>)
    requires |todo| <= STACK
    ensures var trip := From(read, seen, todo);
            && (forall c :: c in todo ==> c in seen || c in trip.order)
            && (forall b, c :: b in trip.order && Leads(read, b, c) ==>
                c in seen || c in trip.order || c in trip.dropped)
    decreases 256 - |seen|, |todo|
  {
    hide Behind, LeadsAt;
    if todo != [] {
      var bus, rest := todo[|todo| - 1], todo[..|todo| - 1];
      assert todo == rest + [bus];
      if bus in seen {
        ScansWhatItMeets(read, seen, rest);
      } else {
        OneMoreSeen(seen, bus);
        var more := rest + Behind(read, bus, seen + {bus}, 256);
        BehindAreBehind(read, bus, seen + {bus}, 256);
        ScansWhatItMeets(read, seen + {bus}, Fits(more));
        FitsOrLost(rest, Behind(read, bus, seen + {bus}, 256));
        forall c | Leads(read, bus, c)
          ensures c in seen || c == bus || c in more
        {
          var k :| LeadsAt(read, bus, k, c);
          ALeadIsInPlace(read, bus, k, c);
        }
      }
    }
  }

  lemma ALeadIsInPlace(read: Space, bus: Bus, k: nat, c: Bus)
    requires LeadsAt(read, bus, k, c)
    ensures k < 256 && c > 0
  {
  }

  lemma FitsOrLost(rest: seq<Bus>, behind: seq<Bus>)
    requires |rest| <= STACK
    ensures forall c :: c in rest ==> c in Fits(rest + behind)
    ensures forall c :: c in behind ==> c in Fits(rest + behind) || c in Lost(rest + behind)
    ensures |Fits(rest + behind)| <= STACK
  {
    var todo := rest + behind;
    if |todo| > STACK {
      assert todo == todo[..STACK] + todo[STACK..];
      var k := STACK - |rest|;
      assert todo[..STACK] == rest + behind[..k] && todo[STACK..] == behind[k..];
      assert behind == behind[..k] + behind[k..];
    }
  }

  /** What the walk misses is exactly what only a full stack kept out: it scans
      all that is reachable if and only if every bus it dropped was scanned from
      elsewhere. */
  lemma CompleteExactlyWhen(read: Space, start: Bus)
    ensures var trip := From(read, {}, [start]);
            (forall b :: Reachable(read, start, b) ==> b in trip.order) <==>
                (forall c :: c in trip.dropped ==> c in trip.order)
  {
    hide From, Reachable, Leads, IsPath;
    var trip := From(read, {}, [start]);
    ReachesItself(read, start);
    ScansOnceWhatIsReachable(read, start, {}, [start]);
    ScansWhatItMeets(read, {}, [start]);
    if forall c :: c in trip.dropped ==> c in trip.order {
      forall b | Reachable(read, start, b)
        ensures b in trip.order
      {
        var p := PathTo(read, start, b);
        ClosedHasAll(read, p, set c | c in trip.order);
      }
    }
  }

  lemma PathTo(read: Space, start: Bus, b: Bus) returns (p: seq<Bus>)
    requires Reachable(read, start, b)
    ensures IsPath(read, p) && p[0] == start && p[|p| - 1] == b
  {
    p :| IsPath(read, p) && p[0] == start && p[|p| - 1] == b;
  }

  /** Everything on the stack was put there for its own bridge on a scanned bus. */
  ghost predicate Sourced(read: Space, seen: set<Bus>, todo: seq<Bus>) {
    && NoRepeats(todo)
    && forall c :: c in todo ==> exists b :: b in seen && Leads(read, b, c)
  }

  lemma {:induction false} OneEach(bs: seq<Bus>, s: set<Bus>)
    requires NoRepeats(bs) && forall c :: c in bs ==> c in s
    ensures |bs| <= |s|
  {
    if bs != [] {
      var c := bs[|bs| - 1];
      OneEach(bs[..|bs| - 1], s - {c});
    }
  }

  /** At most 255 buses can be behind bridges. */
  lemma SourcedFits(read: Space, seen: set<Bus>, todo: seq<Bus>)
    requires Sourced(read, seen, todo)
    ensures |todo| < STACK
  {
    var s := set c | c in todo;
    forall c | c in todo
      ensures c > 0
    {
      var b :| b in seen && Leads(read, b, c);
      var k :| LeadsAt(read, b, k, c);
      ALeadIsInPlace(read, b, k, c);
    }
    OneEach(todo, s);
    AllBuses(s + {0}, 256);
    assert |s + {0}| == |s| + 1;
  }

  lemma {:induction false} BehindHasNoRepeats(read: Space, start: Bus, bus: Bus, seen: set<Bus>, k: nat)
    requires OneBridgeEach(read, start) && Reachable(read, start, bus) && k <= 256
    ensures NoRepeats(Behind(read, bus, seen, k))
  {
    hide Reachable, Present, Secondary;
    if k > 0 {
      BehindHasNoRepeats(read, start, bus, seen, k - 1);
      BehindAreBehind(read, bus, seen, k - 1);
      var to := Secondary(read, bus, (k - 1) / 8, (k - 1) % 8);
      if to.Some? && Present(read, bus, k - 1) {
        assert LeadsAt(read, bus, k - 1, to.value);
      }
    }
  }

  /** Scanning one more bus keeps what is on the stack apart. */
  lemma StillSourced(read: Space, start: Bus, seen: set<Bus>, rest: seq<Bus>, bus: Bus)
    requires OneBridgeEach(read, start) && Sourced(read, seen, rest) && bus !in seen && Reachable(read, start, bus)
    requires forall b :: b in seen ==> Reachable(read, start, b)
    ensures Sourced(read, seen + {bus}, rest + Behind(read, bus, seen + {bus}, 256))
  {
    hide Reachable, Present, Secondary, Behind;
    var behind := Behind(read, bus, seen + {bus}, 256);
    BehindHasNoRepeats(read, start, bus, seen + {bus}, 256);
    BehindAreBehind(read, bus, seen + {bus}, 256);
    forall c | c in behind
      ensures Leads(read, bus, c)
    {
      var k: nat :| LeadsAt(read, bus, k, c);
    }
    forall c | c in rest
      ensures c !in behind
    {
      var b :| b in seen && Leads(read, b, c);
      SameBridge(read, start, b, bus, c);
    }
    forall c | c in rest + behind
      ensures exists b :: b in seen + {bus} && Leads(read, b, c)
    {
      if c in rest {
        var b :| b in seen && Leads(read, b, c);
        assert b in seen + {bus};
      } else {
        assert bus in seen + {bus} && Leads(read, bus, c);
      }
    }
    Apart(rest, behind);
  }

  lemma SameBridge(read: Space, start: Bus, a: Bus, b: Bus, c: Bus)
    requires OneBridgeEach(read, start) && Reachable(read, start, a) && Reachable(read, start, b)
    ensures Leads(read, a, c) && Leads(read, b, c) ==> a == b
  {
    hide Reachable, LeadsAt;
    if Leads(read, a, c) && Leads(read, b, c) {
      var j :| LeadsAt(read, a, j, c);
      var k :| LeadsAt(read, b, k, c);
    }
  }

  lemma Apart(a: seq<Bus>, b: seq<Bus>)
    requires NoRepeats(a) && NoRepeats(b) && forall c :: c in a ==> c !in b
    ensures NoRepeats(a + b)
  {
    var all := a + b;
    forall i, j | 0 <= i < j < |all|
      ensures all[i] != all[j]
    {
      if i < |a| {
        assert all[i] in a;
      }
      if j >= |a| {
        assert all[j] in b;
      }
    }
  }

  lemma SourcedRest(read: Space, seen: set<Bus>, todo: seq<Bus>)
    requires Sourced(read, seen, todo) && todo != []
    ensures Sourced(read, seen, todo[..|todo| - 1])
    ensures exists b :: b in seen && Leads(read, b, todo[|todo| - 1])
  {
    hide Leads;
    var rest := todo[..|todo| - 1];
    assert todo[|todo| - 1] in todo;
    forall c | c in rest
      ensures exists b :: b in seen && Leads(read, b, c)
    {
      assert c in todo;
    }
    assert NoRepeats(rest);
  }

  lemma {:induction false} NeverFull(read: Space, start: Bus, seen: set<Bus>, todo: seq<Bus>)
    requires OneBridgeEach(read, start) && Sourced(read, seen, todo)
    requires forall b :: b in seen ==> Reachable(read, start, b)
    ensures From(read, seen, todo).dropped == {}
    decreases 256 - |seen|, |todo|
  {
    hide Reachable, Behind, LeadsAt, OneBridgeEach;
    if todo != [] {
      var bus, rest := todo[|todo| - 1], todo[..|todo| - 1];
      SourcedRest(read, seen, todo);
      if bus in seen {
        NeverFull(read, start, seen, rest);
      } else {
        var b :| b in seen && Leads(read, b, bus);
        ReachesOn(read, start, b, bus);
        StillSourced(read, start, seen, rest, bus);
        OneMoreSeen(seen, bus);
        SourcedFits(read, seen + {bus}, rest + Behind(read, bus, seen + {bus}, 256));
        NeverFull(read, start, seen + {bus}, rest + Behind(read, bus, seen + {bus}, 256));
      }
    }
  }

  /** With one bridge to each bus the stack never fills, and the walk scans
      exactly what can be reached, each bus once. */
  lemma OneBridgeEachIsComplete(read: Space, start: Bus)
    requires OneBridgeEach(read, start)
    ensures var trip := From(read, {}, [start]);
            && trip.dropped == {} && NoRepeats(trip.order)
            && forall b :: b in trip.order <==> Reachable(read, start, b)
  {
    ReachesItself(read, start);
    hide Reachable, Behind, LeadsAt, OneBridgeEach;
    var behind := Behind(read, start, {start}, 256);
    assert Sourced(read, {}, []);
    StillSourced(read, start, {}, [], start);
    assert [] + behind == behind && {} + {start} == {start};
    SourcedFits(read, {start}, behind);
    NeverFull(read, start, {start}, behind);
    assert [start][..0] == [];
    ScansOnceWhatIsReachable(read, start, {}, [start]);
    CompleteExactlyWhen(read, start);
  }

  // --------------------------------------------- no more bridges than room

  /** How many places on a bus hold bridges that lead somewhere. */
  function BridgePlaces(read: Space, bus: Bus): nat {
    |Behind(read, bus, {}, 256)|
  }

  /** How many there are on these buses, of the first `n`. */
  function PlacesIn(read: Space, s: set<Bus>, n: nat): nat
    requires n <= 256
  {
    if n == 0 then 0 else PlacesIn(read, s, n - 1) + if n - 1 in s then BridgePlaces(read, n - 1) else 0
  }

  /** How many there are on the buses that can be reached, of the first `n`. */
  ghost function ReachablePlaces(read: Space, start: Bus, n: nat): nat
    requires n <= 256
  {
    if n == 0 then 0
    else ReachablePlaces(read, start, n - 1) + if Reachable(read, start, n - 1) then BridgePlaces(read, n - 1) else 0
  }

  lemma {:induction false} FewerUnseen(read: Space, bus: Bus, seen: set<Bus>, k: nat)
    ensures |Behind(read, bus, seen, k)| <= |Behind(read, bus, {}, k)|
  {
    hide Present, Secondary;
    if k > 0 {
      FewerUnseen(read, bus, seen, k - 1);
    }
  }

  lemma {:induction false} OneMoreBus(read: Space, s: set<Bus>, bus: Bus, n: nat)
    requires n <= 256 && bus !in s
    ensures PlacesIn(read, s + {bus}, n) == PlacesIn(read, s, n) + if bus < n then BridgePlaces(read, bus) else 0
  {
    hide BridgePlaces;
    if n > 0 {
      OneMoreBus(read, s, bus, n - 1);
    }
  }

  lemma {:induction false} OnlyReachable(read: Space, start: Bus, s: set<Bus>, n: nat)
    requires n <= 256 && forall b :: b in s ==> Reachable(read, start, b)
    ensures PlacesIn(read, s, n) <= ReachablePlaces(read, start, n)
  {
    hide BridgePlaces, Reachable;
    if n > 0 {
      OnlyReachable(read, start, s, n - 1);
    }
  }

  /** What is on the stack was put there for a place on a bus scanned before; one
      was taken off for every bus scanned, and the first was the start. */
  lemma {:induction false} NeverOverfull(read: Space, start: Bus, seen: set<Bus>, todo: seq<Bus>)
    requires ReachablePlaces(read, start, 256) <= STACK + 1 && |todo| + |seen| <= PlacesIn(read, seen, 256) + 1
    requires seen != {}
    requires forall b :: b in seen ==> Reachable(read, start, b)
    requires forall c :: c in todo ==> Reachable(read, start, c)
    ensures From(read, seen, todo).dropped == {}
    decreases 256 - |seen|, |todo|
  {
    hide Reachable, Behind, ReachablePlaces, PlacesIn;
    if todo != [] {
      var bus, rest := todo[|todo| - 1], todo[..|todo| - 1];
      if bus in seen {
        NeverOverfull(read, start, seen, rest);
      } else {
        OneMoreSeen(seen, bus);
        NeverOverfullAfter(read, start, seen, rest, bus);
        NeverOverfull(read, start, seen + {bus}, rest + Behind(read, bus, seen + {bus}, 256));
      }
    }
  }

  lemma NeverOverfullAfter(read: Space, start: Bus, seen: set<Bus>, rest: seq<Bus>, bus: Bus)
    requires ReachablePlaces(read, start, 256) <= STACK + 1 && bus !in seen
    requires |rest| + |seen| <= PlacesIn(read, seen, 256) && (seen == {} ==> rest == [])
    requires Reachable(read, start, bus) && forall b :: b in seen ==> Reachable(read, start, b)
    requires forall c :: c in rest ==> Reachable(read, start, c)
    ensures var more := rest + Behind(read, bus, seen + {bus}, 256);
            && |more| + |seen + {bus}| <= PlacesIn(read, seen + {bus}, 256) + 1 && |more| <= STACK
            && forall c :: c in more ==> Reachable(read, start, c)
  {
    hide Reachable, Behind, ReachablePlaces, PlacesIn;
    OneMoreBus(read, seen, bus, 256);
    assert |seen + {bus}| == |seen| + 1;
    FewerUnseen(read, bus, seen + {bus}, 256);
    OnlyReachable(read, start, seen + {bus}, 256);
    BehindAreBehind(read, bus, seen + {bus}, 256);
    forall c | c in Behind(read, bus, seen + {bus}, 256)
      ensures Reachable(read, start, c)
    {
      var k: nat :| k < 256 && LeadsAt(read, bus, k, c);
      ReachesOn(read, start, bus, c);
    }
  }

  /** With no more than one bridge more on the buses that can be reached than the
      stack has room for, whatever they lead to, nothing is dropped, and the walk
      scans exactly what can be reached, each bus once. */
  lemma FewBridgesIsComplete(read: Space, start: Bus)
    requires ReachablePlaces(read, start, 256) <= STACK + 1
    ensures var trip := From(read, {}, [start]);
            && trip.dropped == {} && NoRepeats(trip.order)
            && forall b :: b in trip.order <==> Reachable(read, start, b)
  {
    ReachesItself(read, start);
    hide Reachable, Behind, LeadsAt, ReachablePlaces, PlacesIn;
    var behind := Behind(read, start, {start}, 256);
    NeverOverfullAfter(read, start, {}, [], start);
    assert [] + behind == behind && {} + {start} == {start};
    NeverOverfull(read, start, {start}, behind);
    assert [start][..0] == [];
    ScansOnceWhatIsReachable(read, start, {}, [start]);
    CompleteExactlyWhen(read, start);
  }

  // ------------------------------------------- what a full stack can cost

  /** Bus 0 is all bridges to bus 1, which has one to bus 2 and one to bus 3. */
  function Crowded(): Space {
    (r: Reg) =>
      if r.bus == 0 || (r.bus == 1 && r.dev == 0 && r.fun < 2) then
        if r.reg == 0 then Some(0x1_0001)
        else if r.reg == 0x0C then Some(0x81_0000)
        else if r.bus == 0 then Some(0x100)
        else Some(0x200 + 0x100 * r.fun)
      else None
  }

  function Ones(n: nat): (s: seq<Bus>)
    ensures |s| == n
  {
    seq(n, _ => 1)
  }

  lemma ABridgeEverywhere(k: nat)
    ensures Present(Crowded(), 0, k) && Secondary(Crowded(), 0, k / 8, k % 8) == Some(1)
  {
    assert Header(Crowded(), 0, k / 8, 0) == 0x81;
  }

  lemma {:induction false} BehindBus0(k: nat)
    ensures Behind(Crowded(), 0, {0}, k) == Ones(k)
  {
    hide Crowded, Present, Secondary;
    if k > 0 {
      BehindBus0(k - 1);
      ABridgeEverywhere(k - 1);
      assert Ones(k) == Ones(k - 1) + [1];
    }
  }

  lemma {:induction false} BehindBus1(k: nat)
    requires k >= 2
    ensures Behind(Crowded(), 1, {0, 1}, k) == [2, 3]
    ensures LeadsAt(Crowded(), 1, 0, 2) && LeadsAt(Crowded(), 1, 1, 3)
  {
    var read := Crowded();
    assert Present(read, 1, 0) && Present(read, 1, 1);
    if k == 2 {
      assert Behind(read, 1, {0, 1}, 0) == [];
      assert Behind(read, 1, {0, 1}, 1) == [2];
    } else {
      BehindBus1(k - 1);
      assert !Present(read, 1, k - 1);
    }
  }

  lemma {:induction false} BehindBus2(k: nat)
    ensures Behind(Crowded(), 2, {0, 1, 2}, k) == []
  {
    if k > 0 {
      BehindBus2(k - 1);
    }
  }

  lemma {:induction false} OnlySeen(read: Space, seen: set<Bus>, n: nat)
    requires 1 in seen
    ensures From(read, seen, Ones(n)) == Trip([], {})
  {
    if n > 0 {
      assert Ones(n)[..n - 1] == Ones(n - 1);
      OnlySeen(read, seen, n - 1);
    }
  }

  /** Taking one bus off the stack. */
  lemma OneScan(read: Space, seen: set<Bus>, rest: seq<Bus>, bus: Bus, behind: seq<Bus>)
    requires bus !in seen && Behind(read, bus, seen + {bus}, 256) == behind
    ensures var trip, more := From(read, seen + {bus}, Fits(rest + behind)), rest + behind;
            From(read, seen, rest + [bus]) == Trip([bus] + trip.order, Lost(more) + trip.dropped)
  {
    hide Behind, Fits, Lost;
    assert (rest + [bus])[..|rest + [bus]| - 1] == rest;
  }

  lemma RoomForAll(todo: seq<Bus>)
    requires |todo| <= STACK
    ensures Fits(todo) == todo && Lost(todo) == {}
  {
  }

  /** A bus can be reached and yet not be scanned. */
  lemma FullStackMissesABus()
    ensures var trip := From(Crowded(), {}, [0]);
            trip == Trip([0, 1, 2], {3}) && Reachable(Crowded(), 0, 3)
  {
    hide Crowded, Behind, Reachable, From, Fits, Lost, Ones;
    var read := Crowded();
    BehindBus0(256);
    BehindBus1(256);
    BehindBus2(256);
    var ones: seq<Bus> := Ones(255);
    assert {0, 1} + {2} == {0, 1, 2} && {0} + {1} == {0, 1} && {} + {0} == {0};
    OneScan(read, {0, 1}, ones, 2, []);
    OnlySeen(read, {0, 1, 2}, 255);
    RoomForAll(ones);
    assert ones + [] == ones;
    LosesTheLast();
    OneScan(read, {0}, ones, 1, [2, 3]);
    AllOnes();
    OneScan(read, {}, [], 0, Ones(256));
    RoomForAll(Ones(256));
    assert [] + Ones(256) == Ones(256) && [] + [0] == [0];
    BusThreeIsThere();
  }

  lemma AllOnes()
    ensures Ones(256) == Ones(255) + [1]
  {
  }

  lemma LosesTheLast()
    ensures Fits(Ones(255) + [2, 3]) == Ones(255) + [2] && Lost(Ones(255) + [2, 3]) == {3}
  {
    var more: seq<Bus> := Ones(255) + [2, 3];
    assert more[..STACK] == Ones(255) + [2] && more[STACK..] == [3];
  }

  lemma BusThreeIsThere()
    ensures Reachable(Crowded(), 0, 3)
  {
    hide Crowded, Present, Secondary, Behind;
    var read := Crowded();
    ABridgeEverywhere(0);
    assert LeadsAt(read, 0, 0, 1);
    BehindBus1(2);
    assert Leads(read, 0, 1) && Leads(read, 1, 3);
    assert IsPath(read, [0, 1, 3]);
  }

  lemma {:induction false} BridgesOfBus1(k: nat)
    requires k >= 2
    ensures Behind(Crowded(), 1, {}, k) == [2, 3]
  {
    var read := Crowded();
    assert Present(read, 1, 0) && Present(read, 1, 1);
    if k == 2 {
      assert Behind(read, 1, {}, 0) == [];
      assert Behind(read, 1, {}, 1) == [2];
    } else {
      BridgesOfBus1(k - 1);
      assert !Present(read, 1, k - 1);
    }
  }

  lemma {:induction false} BridgesOfBus0(k: nat)
    ensures Behind(Crowded(), 0, {}, k) == Ones(k)
  {
    hide Crowded, Present, Secondary;
    if k > 0 {
      BridgesOfBus0(k - 1);
      ABridgeEverywhere(k - 1);
      assert Ones(k) == Ones(k - 1) + [1];
    }
  }

  lemma {:induction false} NoOtherBridges(bus: Bus, k: nat)
    requires bus >= 2
    ensures Behind(Crowded(), bus, {}, k) == []
  {
    if k > 0 {
      NoOtherBridges(bus, k - 1);
    }
  }

  lemma {:induction false} PlacesThere(n: nat)
    requires 2 <= n <= 256
    ensures ReachablePlaces(Crowded(), 0, n) == 258
  {
    hide Crowded, Behind, Reachable;
    var read := Crowded();
    if n == 2 {
      BridgesOfBus0(256);
      BridgesOfBus1(256);
      ReachesItself(read, 0);
      BusOneIsThere();
      assert ReachablePlaces(read, 0, 0) == 0;
      assert ReachablePlaces(read, 0, 1) == 256;
    } else {
      PlacesThere(n - 1);
      NoOtherBridges(n - 1, 256);
    }
  }

  lemma BusOneIsThere()
    ensures Reachable(Crowded(), 0, 1)
  {
    hide Crowded, Present, Secondary, Behind;
    ABridgeEverywhere(0);
    assert LeadsAt(Crowded(), 0, 0, 1);
    assert Leads(Crowded(), 0, 1);
    assert IsPath(Crowded(), [0, 1]);
  }

  /** One bridge more than that is too many: that space has 258. */
  lemma OneMoreIsTooMany()
    ensures ReachablePlaces(Crowded(), 0, 256) == STACK + 2
    ensures From(Crowded(), {}, [0]).dropped != {}
    ensures exists b :: Reachable(Crowded(), 0, b) && b !in From(Crowded(), {}, [0]).order
  {
    hide Crowded, Behind, Reachable, ReachablePlaces, From;
    PlacesThere(256);
    FullStackMissesABus();
  }
}
