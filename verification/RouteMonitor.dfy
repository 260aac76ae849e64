/**
 * The default-route monitor of the userspace backend (tunnel/defaultroutemonitor.go): it
 * keeps a host route to every WebSocket server through the current default gateway. The
 * routing table belongs to the operating system and changes at any moment; every call the
 * monitor makes is preceded by arbitrary foreign changes.
 */
module RouteMonitor {
  import opened Text
  import opened Netip

  datatype Gateway = Gateway(luid: nat, index: nat, nextHop: Option<Addr>)

  const NO_GATEWAY := Gateway(0, 0, None)

  datatype Route = Route(prefix: Prefix, luid: nat, nextHop: Option<Addr>)

  function RouteVia(prefix: Prefix, gateway: Gateway): Route {
    Route(prefix, gateway.luid, gateway.nextHop)
  }

  datatype AddOutcome = Added | AlreadyExists | Failed

  datatype DeleteOutcome = Deleted | NotFound | NotDeleted

  /** The operating system's routing table, shared with everybody. */
  class RouteTable {
    var rows: set<Route>
    /** Whether deletions are reported to the monitor. */
    var watched: bool
    /** Reports of deletions that the monitor has not yet received. */
    var undelivered: multiset<Prefix>
    /** The rows removed, by anyone, since the last update began. */
    ghost var lost: set<Route>
    /** How many additions were refused. */
    ghost var refused: nat

    constructor (rows: set<Route>)
      ensures this.rows == rows && !watched && undelivered == multiset{}
    {
      this.rows := rows;
      watched, undelivered := false, multiset{};
      lost, refused := {}, 0;
    }

    /** Whoever removes rows of a watched table causes reports. */
    twostate predicate OnlyReportedLoss()
      reads this
    {
      && watched == old(watched)
      && old(undelivered) <= undelivered
      && old(refused) <= refused
      && old(rows) + old(lost) <= rows + lost
      && (watched ==> forall r :: r in old(rows) && r !in rows ==> r.prefix in undelivered)
    }

    /** Others add and delete any rows. */
    method Interfere()
      modifies this
      ensures OnlyReportedLoss() && refused == old(refused)
    {
      var gone: set<Route> :| gone <= rows;
      var fresh': set<Route> := *;
      rows := rows - gone + fresh';
      lost := lost + gone;
      if watched {
        undelivered := undelivered + multiset(set r | r in gone :: r.prefix);
        assert forall r :: r in gone ==> r.prefix in (set r | r in gone :: r.prefix);
      }
    }

    /** LUID.AddRoute: it may fail for any reason; it reports an existing row as such. */
    method AddRoute(route: Route) returns (outcome: AddOutcome)
      modifies this
      ensures OnlyReportedLoss()
      ensures outcome.Added? ==> route !in old(rows) && rows == old(rows) + {route}
      ensures outcome.AlreadyExists? ==> route in rows && rows == old(rows)
      ensures outcome.Failed? ==> rows == old(rows)
      ensures refused == old(refused) + if outcome.Failed? then 1 else 0
    {
      var fails := *;
      if fails {
        refused := refused + 1;
        outcome := Failed;
      } else if route in rows {
        outcome := AlreadyExists;
      } else {
        rows := rows + {route};
        outcome := Added;
      }
    }

    /** LUID.DeleteRoute: it may fail for any reason, and then the row stays. */
    method DeleteRoute(route: Route) returns (outcome: DeleteOutcome)
      modifies this
      ensures OnlyReportedLoss()
      ensures outcome.Deleted? ==> route in old(rows) && rows == old(rows) - {route}
      ensures outcome.NotFound? ==> route !in rows && rows == old(rows)
      ensures outcome.NotDeleted? ==> rows == old(rows)
      ensures refused == old(refused)
    {
      var fails := *;
      if fails {
        outcome := NotDeleted;
      } else if route !in rows {
        outcome := NotFound;
      } else {
        if watched {
          undelivered := undelivered + multiset{route.prefix};
        }
        rows, lost := rows - {route}, lost + {route};
        outcome := Deleted;
      }
    }

    method Watch(on: bool)
      modifies this
      ensures rows == old(rows) && watched == on && undelivered == multiset{}
      ensures lost == old(lost) && refused == old(refused)
    {
      watched, undelivered := on, multiset{};
    }
  }

  /** What the monitor keeps for one address family. */
  datatype Family = Family(hosts: seq<Prefix>, gateway: Gateway, owned: set<Prefix>, incomplete: bool)

  class Monitor {
    const table: RouteTable
    const ourLUID: nat
    var families: seq<Family>
    /** Whether the change callbacks are registered and recorded. */
    var started: bool
    /** Destroy has begun, and ended. */
    var closing: bool
    var destroyed: bool
    /** The rows this monitor added and has not deleted since. */
    ghost var mine: set<Route>
    /** Those among them whose deletion was tried and failed; the monitor forgets them. */
    ghost var stuck: set<Route>
    /** The number of deletions that failed. */
    ghost var failures: nat
    /** The number of routes added. */
    ghost var additions: nat
    /** For each family: its host routes were all there once since the table is watched. */
    ghost var covering: seq<bool>

    ghost predicate Shape()
      reads this
    {
      && |families| == 2
      && (forall h :: h in families[0].hosts ==> h !in families[1].hosts)
      && (forall k :: 0 <= k < 2 ==> families[k].owned <= set h | h in families[k].hosts)
    }

    predicate Owns(k: nat, route: Route)
      requires k < |families|
      reads this
    {
      route.prefix in families[k].owned && route == RouteVia(route.prefix, families[k].gateway)
    }

    /** The rows added and not yet deleted are exactly the owned hosts through the gateways, and
        those whose deletion failed. */
    ghost predicate MineIsOwned()
      requires |families| == 2
      reads this
    {
      forall r :: r in mine <==> Owns(0, r) || Owns(1, r) || r in stuck
    }

    /** A host has its route through the gateway, or the report of its loss is on the way. */
    predicate HostCovered(host: Prefix, gateway: Gateway)
      reads this, table
    {
      RouteVia(host, gateway) in table.rows || host in table.undelivered
    }

    predicate FamilyCovered(f: Family)
      reads this, table
    {
      !f.incomplete && f.gateway.luid != 0 ==> forall i :: 0 <= i < |f.hosts| ==> HostCovered(f.hosts[i], f.gateway)
    }

    ghost predicate Covered()
      reads this, table
    {
      && |families| == |covering| == 2
      && forall k :: 0 <= k < 2 && covering[k] ==> table.watched && FamilyCovered(families[k])
    }

    /** What holds before and after every step of an update. */
    ghost predicate Good()
      reads this, table
      ensures Good() ==> |families| == |covering| == 2 && forall k :: 0 <= k < 2 && covering[k] ==> table.watched
    {
      Shape() && MineIsOwned() && Covered()
    }

    /** What holds whenever the mutex is free. */
    ghost predicate Inv()
      reads this, table
    {
      && Good()
      && (table.watched ==> !destroyed)
      && (started ==> table.watched && !closing)
      && (destroyed ==> closing && families[0].owned == {} && families[1].owned == {})
    }

    constructor (table: RouteTable, ourLUID: nat, hosts4: seq<Prefix>, hosts6: seq<Prefix>)
      requires forall h :: h in hosts4 ==> h !in hosts6
      requires !table.watched
      ensures this.table == table && this.ourLUID == ourLUID && Inv()
      ensures !started && !closing && !destroyed && mine == stuck == {} && failures == additions == 0
      ensures families == [Family(hosts4, NO_GATEWAY, {}, false), Family(hosts6, NO_GATEWAY, {}, false)]
    {
      this.table, this.ourLUID := table, ourLUID;
      families := [Family(hosts4, NO_GATEWAY, {}, false), Family(hosts6, NO_GATEWAY, {}, false)];
      started, closing, destroyed := false, false, false;
      mine, stuck, failures, additions, covering := {}, {}, 0, 0, [false, false];
    }

    /** Nothing new gets stuck unless a deletion fails. */
    twostate predicate StuckOnFailure()
      reads this
    {
      old(failures) <= failures && (failures == old(failures) ==> stuck <= old(stuck))
    }

    // ----- updateLocked -----

    /** The rows this monitor has, while family k still holds `todo` through `previous`. */
    ghost predicate MineIsTodo(k: nat, previous: Gateway, todo: set<Prefix>)
      requires k < 2 && |families| == 2
      reads this
    {
      forall r :: r in mine <==>
        (r.prefix in todo && r == RouteVia(r.prefix, previous)) || Owns(1 - k, r) || r in stuck
    }

    /** The monitor deletes no route but those it added and has not deleted. It ignores the
        outcome; a route whose deletion failed is stuck. */
    method DeleteMine(route: Route) returns (outcome: DeleteOutcome)
      requires route in mine
      modifies this`mine, this`stuck, this`failures, table
      ensures table.OnlyReportedLoss() && StuckOnFailure()
      ensures failures == old(failures) + if outcome.NotDeleted? then 1 else 0
      ensures table.refused == old(table.refused)
      ensures outcome.NotDeleted? ==>
        table.rows == old(table.rows) && mine == old(mine) && stuck == old(stuck) + {route}
      ensures !outcome.NotDeleted? ==>
        route !in table.rows && mine == old(mine) - {route} && stuck == old(stuck) - {route}
    {
      outcome := table.DeleteRoute(route);
      if outcome.NotDeleted? {
        stuck, failures := stuck + {route}, failures + 1;
      } else {
        mine, stuck := mine - {route}, stuck - {route};
      }
    }

    /** Deleting one of the routes of a family that went through a gateway. */
    method DeleteNext(k: nat, previous: Gateway, todo: set<Prefix>, host: Prefix)
      requires k < 2 && Covered() && MineIsTodo(k, previous, todo)
      requires host in todo && (covering[k] ==> families[k].incomplete)
      requires todo <= families[k].owned <= (set h | h in families[k].hosts) && Shape()
      modifies this`mine, this`stuck, this`failures, table
      ensures Covered() && MineIsTodo(k, previous, todo - {host})
      ensures mine <= old(mine) && stuck <= old(mine) + old(stuck) && StuckOnFailure()
      ensures table.OnlyReportedLoss() && table.refused == old(table.refused)
    {
      table.Interfere();
      var outcome := DeleteMine(RouteVia(host, previous));
    }

    /** Deleting the routes of one family that went through a gateway. */
    method DeleteOwned(k: nat, previous: Gateway)
      requires k < 2 && Shape() && Covered() && MineIsTodo(k, previous, families[k].owned)
      requires covering[k] ==> families[k].incomplete
      modifies this`families, this`mine, this`stuck, this`failures, table
      ensures |families| == 2 && families == old(families)[k := old(families)[k].(owned := {})]
      ensures Good()
      ensures mine <= old(mine) && stuck <= old(mine) + old(stuck) && StuckOnFailure()
      ensures old(families)[k].owned == {} ==> mine == old(mine) && stuck == old(stuck)
      ensures table.OnlyReportedLoss() && table.refused == old(table.refused)
    {
      var todo := families[k].owned;
      while todo != {}
        invariant families == old(families) && todo <= families[k].owned
        invariant MineIsTodo(k, previous, todo) && mine <= old(mine) && stuck <= old(mine) + old(stuck)
        invariant families[k].owned == {} ==> mine == old(mine) && stuck == old(stuck)
        invariant Covered() && StuckOnFailure()
        invariant table.OnlyReportedLoss() && table.refused == old(table.refused)
      {
        hide MineIsTodo, FamilyCovered;
        var host :| host in todo;
        DeleteNext(k, previous, todo, host);
        todo := todo - {host};
      }
      ForgetOwned(k, previous);
    }

    method ForgetOwned(k: nat, previous: Gateway)
      requires k < 2 && Shape() && Covered() && MineIsTodo(k, previous, {})
      modifies this`families
      ensures |families| == 2 && families == old(families)[k := old(families)[k].(owned := {})]
      ensures Good()
    {
      families := families[k := families[k].(owned := {})];
    }

    /** Adding the route to one host of the family being updated. */
    method AddHost(k: nat, host: Prefix) returns (outcome: AddOutcome)
      requires k < 2 && Good() && host in families[k].hosts
      requires families[k].incomplete && families[k].gateway.luid != 0
      modifies this`families, this`mine, this`stuck, this`additions, table
      ensures |families| == 2 && families == old(families)[k := old(families)[k].(owned := families[k].owned)]
      ensures Good()
      ensures table.OnlyReportedLoss() && table.refused == old(table.refused) + if outcome.Failed? then 1 else 0
      ensures var route := RouteVia(host, families[k].gateway);
        if outcome.Added? then
          mine == old(mine) + {route} && stuck == old(stuck) - {route} && additions == old(additions) + 1
        else
          mine == old(mine) && stuck == old(stuck) && families == old(families) && additions == old(additions)
      ensures !outcome.Failed? ==> RouteVia(host, families[k].gateway) in table.rows
    {
      table.Interfere();
      var f := families[k];
      outcome := table.AddRoute(RouteVia(host, f.gateway));
      if outcome.Added? {
        families := families[k := f.(owned := f.owned + {host})];
        mine := mine + {RouteVia(host, f.gateway)};
        stuck, additions := stuck - {RouteVia(host, f.gateway)}, additions + 1;
      }
    }

    /** The family has all its routes: it is covered from then on, if the table is watched. */
    method MarkComplete(k: nat)
      requires k < 2 && Good() && families[k].incomplete
      requires table.watched && families[k].gateway.luid != 0 ==>
        forall i :: 0 <= i < |families[k].hosts| ==> HostCovered(families[k].hosts[i], families[k].gateway)
      modifies this`families, this`covering
      ensures Good()
      ensures families == old(families)[k := old(families)[k].(incomplete := false)]
      ensures covering == old(covering)[k := old(covering)[k] || table.watched]
    {
      families := families[k := families[k].(incomplete := false)];
      covering := covering[k := covering[k] || table.watched];
    }

    /** Adding the routes to all hosts, up to the first failure. */
    method AddHosts(k: nat) returns (added: bool, failed: bool)
      requires k < 2 && Good() && families[k].incomplete
      modifies this`families, this`mine, this`stuck, this`failures, this`additions, this`covering, table
      ensures Good()
      ensures families == old(families)[k := old(families)[k].(owned := families[k].owned, incomplete := failed)]
      ensures covering == old(covering)[k := old(covering)[k] || (table.watched && !failed)]
      ensures table.OnlyReportedLoss() && (failed <==> old(table.refused) < table.refused)
      ensures !failed ==> AllReached(families[k])
      ensures StuckOnFailure()
      ensures old(additions) <= additions && (added <==> old(additions) < additions)
      ensures !added ==> mine == old(mine) && stuck == old(stuck)
    {
      hide Good;
      var f := families[k];
      added, failed := false, false;
      var i := 0;
      while i < |f.hosts| && !failed
        invariant i <= |f.hosts| && Good() && covering == old(covering)
        invariant families == old(families)[k := f.(owned := families[k].owned)]
        invariant table.OnlyReportedLoss() && (failed <==> old(table.refused) < table.refused)
        invariant StuckOnFailure()
        invariant old(additions) <= additions && (added <==> old(additions) < additions)
        invariant !added ==> mine == old(mine) && stuck == old(stuck)
        invariant !failed && f.gateway.luid != 0 ==>
          forall j :: 0 <= j < i ==> RouteVia(f.hosts[j], f.gateway) in table.rows + table.lost
        invariant table.watched && !failed && f.gateway.luid != 0 ==>
          forall j :: 0 <= j < i ==> HostCovered(f.hosts[j], f.gateway)
      {
        if f.gateway.luid != 0 {
          var outcome := AddHost(k, f.hosts[i]);
          added, failed := added || outcome.Added?, outcome.Failed?;
        }
        i := i + 1;
      }
      if !failed {
        MarkComplete(k);
      }
    }

    /** Every host of the family has got its route through the gateway, if there is one, since the
        update began. */
    ghost predicate AllReached(f: Family)
      reads table
    {
      f.gateway.luid != 0 ==>
        forall i :: 0 <= i < |f.hosts| ==> RouteVia(f.hosts[i], f.gateway) in table.rows + table.lost
    }

    /** The family was moved to another gateway, or was incomplete before. */
    predicate Moves(before: Family, after: Family) {
      after.gateway != before.gateway || before.incomplete
    }

    /** The part of updateLocked for one family, after its gateway was read. */
    method MoveFamily(k: nat, gateway: Gateway) returns (moved: bool, failed: bool)
      requires k < 2 && Good()
      modifies this`families, this`mine, this`stuck, this`failures, this`additions, this`covering, table
      ensures Good()
      ensures families[1 - k] == old(families)[1 - k]
      ensures families[k].hosts == old(families)[k].hosts && families[k].gateway == gateway
      ensures families[k].incomplete == failed
      ensures covering == old(covering)[k := covering[k]]
      ensures var f := old(families)[k];
        covering[k] == (old(covering)[k] || (table.watched && !failed && (gateway != f.gateway || f.incomplete)))
      ensures table.OnlyReportedLoss() && (failed <==> old(table.refused) < table.refused)
      ensures Moves(old(families)[k], families[k]) && !failed ==> AllReached(families[k])
      ensures StuckOnFailure()
      ensures old(additions) <= additions
      ensures var f := old(families)[k];
        moved <==> (gateway != f.gateway && f.hosts != []) || old(additions) < additions
      ensures !moved ==> mine == old(mine) && stuck == old(stuck)
    {
      var f := families[k];
      if gateway == f.gateway && !f.incomplete {
        return false, false;
      }
      var previous := f.gateway;
      moved := false;
      families := families[k := f.(gateway := gateway, incomplete := true)];
      if previous != gateway {
        DeleteOwned(k, previous);
        moved := |f.hosts| != 0;
      }
      var added;
      added, failed := AddHosts(k);
      moved := moved || added;
    }

    /** A family after an update that was given these rows of the forwarding table, or none. */
    ghost predicate Follows(read: Option<seq<ForwardRow>>, before: Family, after: Family) {
      && after.hosts == before.hosts
      && if read.None? then after == before else IsDefaultGateway(read.value, ourLUID, after.gateway)
    }

    /** One round of updateLocked: the table may be unreadable. */
    method UpdateFamily(k: nat, read: Option<seq<ForwardRow>>) returns (moved: bool, failed: bool)
      requires k < 2 && Good() && ValidRead(read)
      modifies this`families, this`mine, this`stuck, this`failures, this`additions, this`covering, table
      ensures Good()
      ensures families[1 - k] == old(families)[1 - k] && Follows(read, old(families)[k], families[k])
      ensures failed <==> read.None? || old(table.refused) < table.refused
      ensures read.Some? ==> families[k].incomplete == failed
      ensures read.Some? && Moves(old(families)[k], families[k]) && !failed ==> AllReached(families[k])
      ensures covering == old(covering)[k := covering[k]]
      ensures table.watched && read.Some? && Moves(old(families)[k], families[k]) && !failed ==> covering[k]
      ensures old(covering)[k] ==> covering[k]
      ensures table.OnlyReportedLoss() && old(table.refused) <= table.refused
      ensures StuckOnFailure()
      ensures old(additions) <= additions
      ensures var f := old(families)[k];
        moved <==> (families[k].gateway != f.gateway && f.hosts != []) || old(additions) < additions
      ensures !moved ==> mine == old(mine) && stuck == old(stuck)
    {
      hide IsDefaultGateway;
      table.Interfere();
      if read.Some? {
        var gateway := FindDefaultGateway(read.value, ourLUID);
        moved, failed := MoveFamily(k, gateway);
      } else {
        moved, failed := false, true;
      }
    }

    /** What an update does to a family that was `before`, unless its table cannot be read or a
        route not be added. */
    ghost predicate Updated(before: Family, f: Family, read: Option<seq<ForwardRow>>, failed: bool)
      reads table
    {
      && Follows(read, before, f)
      && (!failed ==> read.Some? && !f.incomplete)
      && (!failed && Moves(before, f) ==> AllReached(f))
    }

    /** A family with hosts has another gateway than before. */
    predicate ChangedGateway(before: Family, f: Family) {
      f.gateway != before.gateway && before.hosts != []
    }

    /** A family that moved or was incomplete, and is complete. */
    predicate Repaired(before: Family, f: Family, read: Option<seq<ForwardRow>>) {
      Moves(before, f) && !f.incomplete && read.Some?
    }

    ghost method BeginUpdate()
      requires Good()
      modifies table`lost
      ensures Good()
    {
      table.lost := {};
    }

    /** updateLocked: families whose gateway cannot be read are left as they are. */
    method UpdateLocked(tables: seq<Option<seq<ForwardRow>>>) returns (moved: bool, failed: bool)
      requires Good() && ValidTables(tables)
      modifies this`families, this`mine, this`stuck, this`failures, this`additions, this`covering, table
      ensures Good()
      ensures table.watched == old(table.watched) && old(table.refused) <= table.refused
      ensures forall k :: 0 <= k < 2 ==> Updated(old(families)[k], families[k], tables[k], failed)
      ensures failed <==> (exists k :: 0 <= k < 2 && tables[k].None?) || old(table.refused) < table.refused
      ensures forall k :: 0 <= k < 2 && old(covering)[k] ==> covering[k]
      ensures table.watched ==>
        forall k :: 0 <= k < 2 && Repaired(old(families)[k], families[k], tables[k]) ==> covering[k]
      ensures StuckOnFailure() && old(additions) <= additions
      ensures moved <==>
        (exists k :: 0 <= k < 2 && ChangedGateway(old(families)[k], families[k])) || old(additions) < additions
      ensures !moved ==> mine == old(mine) && stuck == old(stuck)
    {
      hide Follows, Good, ValidRead, Moves;
      BeginUpdate();
      moved, failed := false, false;
      var k := 0;
      while k < 2
        invariant 0 <= k <= 2 && Good()
        invariant table.watched == old(table.watched) && old(table.refused) <= table.refused
        invariant forall j :: k <= j < 2 ==> families[j] == old(families)[j]
        invariant forall j :: 0 <= j < k ==> Updated(old(families)[j], families[j], tables[j], failed)
        invariant failed <==> (exists j :: 0 <= j < k && tables[j].None?) || old(table.refused) < table.refused
        invariant forall j :: 0 <= j < 2 && old(covering)[j] ==> covering[j]
        invariant table.watched ==>
          forall j :: 0 <= j < k && Repaired(old(families)[j], families[j], tables[j]) ==> covering[j]
        invariant StuckOnFailure() && old(additions) <= additions
        invariant moved <==>
          (exists j :: 0 <= j < k && ChangedGateway(old(families)[j], families[j])) || old(additions) < additions
        invariant !moved ==> mine == old(mine) && stuck == old(stuck)
      {
        var m, e := UpdateFamily(k, tables[k]);
        moved, failed := moved || m, failed || e;
        k := k + 1;
      }
    }

    // ----- The operations -----

    /** newDefaultRouteMonitor, after the fields are set: on failure nothing is left behind but
        what could not be deleted. */
    method Install(tables: seq<Option<seq<ForwardRow>>>) returns (ok: bool)
      requires Inv() && !started && !closing && !table.watched && ValidTables(tables)
      modifies this`families, this`mine, this`stuck, this`failures, this`additions, this`covering, table
      ensures Inv() && !table.watched
      ensures ok <==> tables[0].Some? && tables[1].Some? && table.refused == old(table.refused)
      ensures !ok ==> mine == stuck
      ensures StuckOnFailure()
      ensures ok ==> forall k :: 0 <= k < 2 ==> Updated(old(families)[k], families[k], tables[k], false)
    {
      hide Good, Updated, ValidRead;
      var moved, failed := UpdateLocked(tables);
      if failed {
        RemoveHostRoutes();
      }
      ok := !failed;
    }

    /** RegisterRouteChangeCallback: from here on deletions are reported. */
    method BeginWatching()
      requires Inv() && !started && !closing && !table.watched
      modifies this`covering, table
      ensures Inv() && table.watched && table.rows == old(table.rows) && table.undelivered == multiset{}
      ensures forall k :: 0 <= k < 2 ==> (covering[k] <==> FamilyCovered(families[k]))
      ensures table.refused == old(table.refused)
    {
      table.Watch(true);
      covering := [FamilyCovered(families[0]), FamilyCovered(families[1])];
    }

    /** The first part of start: pinning the sockets or registering may fail. */
    method StartWatching() returns (ok: bool)
      requires Inv() && !started && !closing && !table.watched
      modifies this`covering, table
      ensures Inv() && table.watched == ok
      ensures table.refused == old(table.refused)
    {
      table.Interfere();
      var pinned := *;
      var registered := *;
      ok := pinned && registered;
      if ok {
        BeginWatching();
      }
    }

    /** The rest of start: when the second callback cannot be registered, the first goes. */
    method FinishStart() returns (ok: bool)
      requires Inv() && !started && !closing && table.watched
      modifies this`started, this`covering, table
      ensures Inv() && started == ok && table.watched == ok
      ensures ok ==> covering == old(covering)
      ensures table.refused == old(table.refused)
    {
      table.Interfere();
      ok := *;
      if ok {
        started := true;
      } else {
        table.Watch(false);
        covering := [false, false];
      }
    }

    /** hostRouteDeleted: the report of a deleted route is received. */
    method HostRouteDeleted(prefix: Prefix) returns (found: bool)
      requires Inv() && prefix in table.undelivered
      modifies this`families, table
      ensures Inv() && table.rows == old(table.rows)
      ensures table.undelivered == old(table.undelivered) - multiset{prefix}
      ensures found <==> prefix in old(families)[0].hosts || prefix in old(families)[1].hosts
      ensures |families| == 2 && forall k :: 0 <= k < 2 ==>
        var f := old(families)[k]; families[k] == f.(incomplete := f.incomplete || prefix in f.hosts)
      ensures table.refused == old(table.refused)
    {
      table.undelivered := table.undelivered - multiset{prefix};
      found := false;
      var k := 0;
      while k < 2 && !found
        invariant 0 <= k <= 2
        invariant table.rows == old(table.rows) && table.watched == old(table.watched)
        invariant table.refused == old(table.refused)
        invariant table.undelivered == old(table.undelivered) - multiset{prefix}
        invariant !found ==> families == old(families) && forall j :: 0 <= j < k ==> prefix !in families[j].hosts
        invariant found ==> k > 0 && prefix in old(families)[k - 1].hosts
                            && families == old(families)[k - 1 := old(families)[k - 1].(incomplete := true)]
      {
        if prefix in families[k].hosts {
          families := families[k := families[k].(incomplete := true)];
          found := true;
        }
        k := k + 1;
      }
    }

    /** update: does nothing unless the monitor is started; an error is only logged. A family that
        moved or was incomplete, and is complete, is covered from then on. */
    method Update(tables: seq<Option<seq<ForwardRow>>>) returns (moved: bool, failed: bool)
      requires Inv() && ValidTables(tables)
      modifies this`families, this`mine, this`stuck, this`failures, this`additions, this`covering, table
      ensures Inv()
      ensures !started ==> !failed && !moved && families == old(families) && table.rows == old(table.rows)
      ensures started ==> forall k :: 0 <= k < 2 ==> Updated(old(families)[k], families[k], tables[k], failed)
      ensures started ==>
        (failed <==> (exists k :: 0 <= k < 2 && tables[k].None?) || old(table.refused) < table.refused)
      ensures started ==>
        forall k :: 0 <= k < 2 && Repaired(old(families)[k], families[k], tables[k]) ==> covering[k]
      ensures started ==> (moved <==>
        (exists k :: 0 <= k < 2 && ChangedGateway(old(families)[k], families[k])) || old(additions) < additions)
      ensures forall k :: 0 <= k < 2 && old(covering)[k] ==> covering[k]
      ensures StuckOnFailure() && old(table.refused) <= table.refused
      ensures !moved ==> mine == old(mine) && stuck == old(stuck)
    {
      if !started {
        return false, false;
      }
      moved, failed := UpdateLocked(tables);
    }

    /** removeHostRoutesLocked. */
    method RemoveHostRoutes()
      requires Good() && !covering[0] && !covering[1]
      modifies this`families, this`mine, this`stuck, this`failures, table
      ensures Good() && mine == stuck
      ensures mine <= old(mine) && stuck <= old(mine) + old(stuck) && StuckOnFailure()
      ensures old(families[0].owned == {} && families[1].owned == {}) ==> mine == old(mine) && stuck == old(stuck)
      ensures table.watched == old(table.watched)
      ensures forall k :: 0 <= k < 2 ==> families[k].gateway == NO_GATEWAY && families[k].owned == {}
      ensures table.refused == old(table.refused)
    {
      var k := 0;
      while k < 2
        invariant 0 <= k <= 2
        invariant Good()
        invariant mine <= old(mine) && stuck <= old(mine) + old(stuck) && StuckOnFailure()
        invariant forall j :: k <= j < 2 ==> families[j] == old(families)[j]
        invariant old(families[0].owned == {} && families[1].owned == {}) ==> mine == old(mine) && stuck == old(stuck)
        invariant table.refused == old(table.refused)
        invariant table.watched == old(table.watched)
        invariant forall j :: 0 <= j < k ==> families[j].gateway == NO_GATEWAY && families[j].owned == {}
      {
        DeleteOwned(k, families[k].gateway);
        families := families[k := families[k].(gateway := NO_GATEWAY)];
        k := k + 1;
      }
    }

    /** The first half of Destroy: no later update does anything. */
    method BeginDestroy()
      requires Inv()
      modifies this`started, this`closing, this`covering, table
      ensures Inv() && !started && closing
      ensures table.refused == old(table.refused)
    {
      started, closing := false, true;
      table.Watch(false);
      covering := [false, false];
    }

    /** The second half of Destroy: of the routes the monitor added, those are left whose deletion
        failed, and no others. */
    method EndDestroy()
      requires Inv() && closing && !table.watched
      modifies this`families, this`mine, this`stuck, this`failures, this`destroyed, table
      ensures Inv() && destroyed && mine == stuck
      ensures mine <= old(mine) && StuckOnFailure()
      ensures old(stuck) == {} && failures == old(failures) ==> mine == {}
      ensures old(destroyed) ==> mine == old(mine)
      ensures table.refused == old(table.refused)
    {
      RemoveHostRoutes();
      destroyed := true;
    }

    // ----- Whole runs -----

    /** What an update of a started monitor leaves behind when the families were `before`: every
        table read has given its gateway; without failure no family is incomplete, and one that
        moved or was incomplete has got all its routes; every host of a covered family has its
        route, or the report of its loss is on the way. */
    ghost predicate Followed(before: seq<Family>, tables: seq<Option<seq<ForwardRow>>>, failed: bool)
      reads this, table
    {
      && |before| == |tables| == |families| == |covering| == 2
      && forall k :: 0 <= k < 2 ==>
        && Updated(before[k], families[k], tables[k], failed)
        && (Repaired(before[k], families[k], tables[k]) ==> covering[k])
        && (covering[k] ==> FamilyCovered(families[k]))
    }

    /** An update fails only if a table cannot be read or a route not be added. */
    ghost predicate Excused(tables: seq<Option<seq<ForwardRow>>>, refused: nat)
      reads table
    {
      (exists k :: 0 <= k < |tables| && tables[k].None?) || refused < table.refused
    }

    /** One action. */
    method Act(action: Action) returns (failed: bool)
      requires Inv() && ValidAction(action)
      modifies this, table
      ensures Inv() && StuckOnFailure() && old(table.refused) <= table.refused
      ensures action.UpdateAction? && started ==>
        Followed(old(families), action.tables, failed) && (failed ==> Excused(action.tables, old(table.refused)))
      ensures old(destroyed) ==> destroyed && mine == old(mine)
      ensures old(started) && action != BeginDestroyAction ==>
        started && forall k :: 0 <= k < 2 && old(covering)[k] ==> covering[k]
    {
      hide Follows, AllReached;
      failed := false;
      match action {
        case ForeignChanges =>
          table.Interfere();
        case Deliver(prefix) =>
          if prefix in table.undelivered {
            var found := HostRouteDeleted(prefix);
          }
        case UpdateAction(tables) =>
          var moved;
          moved, failed := Update(tables);
        case StartWatchingAction =>
          if !started && !closing && !table.watched {
            var ok := StartWatching();
          }
        case FinishStartAction =>
          if !started && !closing && table.watched {
            var ok := FinishStart();
          }
        case BeginDestroyAction =>
          BeginDestroy();
        case EndDestroyAction =>
          if closing && !table.watched {
            EndDestroy();
          }
      }
    }

    /** Any sequence of foreign changes, reports, updates and calls, in any order, with
        foreign changes inside every call as well. Once destroyed, the routes left are those
        whose deletion failed, so none if none failed, and none is added any more. After an update
        of a started monitor the families, `before` it given, follow the tables it read. */
    method Run(actions: seq<Action>) returns (failed: bool, ghost before: seq<Family>)
      requires Inv() && forall i :: 0 <= i < |actions| ==> ValidAction(actions[i])
      modifies this, table
      ensures Inv()
      ensures destroyed ==> mine == stuck
      ensures StuckOnFailure()
      ensures destroyed && old(stuck) == {} && failures == old(failures) ==> mine == {}
      ensures old(destroyed) ==> destroyed && mine == old(mine)
      ensures old(started) && BeginDestroyAction !in actions ==>
        started && forall k :: 0 <= k < 2 && old(covering)[k] ==> covering[k] && FamilyCovered(families[k])
      ensures actions != [] && started ==>
        var last := actions[|actions| - 1];
        last.UpdateAction? ==>
          Followed(before, last.tables, failed) && (failed ==> Excused(last.tables, old(table.refused)))
    {
      hide Followed, ValidAction;
      failed, before := false, families;
      var i := 0;
      while i < |actions|
        invariant i <= |actions| && Inv() && StuckOnFailure() && old(table.refused) <= table.refused
        invariant old(destroyed) ==> destroyed && mine == old(mine)
        invariant old(started) && BeginDestroyAction !in actions ==>
          started && forall k :: 0 <= k < 2 && old(covering)[k] ==> covering[k]
        invariant i > 0 && started && actions[i - 1].UpdateAction? ==>
          var tables := actions[i - 1].tables;
          Followed(before, tables, failed) && (failed ==> Excused(tables, old(table.refused)))
      {
        before := families;
        failed := Act(actions[i]);
        i := i + 1;
      }
    }
  }

  datatype Action =
    | ForeignChanges | Deliver(prefix: Prefix) | UpdateAction(tables: seq<Option<seq<ForwardRow>>>)
    | StartWatchingAction | FinishStartAction | BeginDestroyAction | EndDestroyAction

  /** What GetIPForwardTable2 may answer: the rows, or an error. */
  predicate ValidRead(read: Option<seq<ForwardRow>>) {
    read.Some? ==> ValidRows(read.value)
  }

  predicate ValidTables(tables: seq<Option<seq<ForwardRow>>>) {
    |tables| == 2 && ValidRead(tables[0]) && ValidRead(tables[1])
  }

  predicate ValidAction(action: Action) {
    action.UpdateAction? ==> ValidTables(action.tables)
  }

  // ----- Choosing the gateway -----

  /** A row of the forwarding table, and what is known of its interface. */
  datatype ForwardRow = ForwardRow(prefixLength: nat, luid: nat, index: nat, nextHop: Addr, metric: nat,
                                   interfaceUp: bool, interfaceMetric: Option<nat>)

  const MAX_UINT32: nat := 0xffff_ffff

  predicate ValidRow(r: ForwardRow) {
    r.metric <= MAX_UINT32 && (r.interfaceMetric.Some? ==> r.interfaceMetric.value <= MAX_UINT32)
  }

  /** A default route that is not the tunnel's, through an interface that is up. */
  predicate IsCandidate(r: ForwardRow, ourLUID: nat) {
    r.prefixLength == 0 && r.luid != ourLUID && r.interfaceUp && r.interfaceMetric.Some?
  }

  function CombinedMetric(r: ForwardRow): nat
    requires r.interfaceMetric.Some?
  {
    r.metric + r.interfaceMetric.value
  }

  predicate IsBest(rows: seq<ForwardRow>, ourLUID: nat, best: nat) {
    && best < |rows| && IsCandidate(rows[best], ourLUID)
    && (forall i :: 0 <= i < |rows| && IsCandidate(rows[i], ourLUID) ==>
      CombinedMetric(rows[best]) <= CombinedMetric(rows[i]))
    && (forall i :: 0 <= i < best && IsCandidate(rows[i], ourLUID) ==>
      CombinedMetric(rows[best]) < CombinedMetric(rows[i]))
  }

  function GatewayOf(r: ForwardRow): Gateway {
    Gateway(r.luid, r.index, Some(r.nextHop))
  }

  predicate ValidRows(rows: seq<ForwardRow>) {
    forall i :: 0 <= i < |rows| ==> ValidRow(rows[i])
  }

  /** The first candidate of least combined metric, if there is any. */
  ghost predicate IsDefaultGateway(rows: seq<ForwardRow>, ourLUID: nat, gateway: Gateway) {
    if exists i :: 0 <= i < |rows| && IsCandidate(rows[i], ourLUID)
    then exists best: nat :: IsBest(rows, ourLUID, best) && gateway == GatewayOf(rows[best])
    else gateway == NO_GATEWAY
  }

  /** The gateway is that of row i: a route to everywhere, not through the tunnel itself, on an
      interface that is up. No other such row has a lower sum of metrics. */
  predicate LeadsOut(rows: seq<ForwardRow>, i: nat, ourLUID: nat, gateway: Gateway)
    requires i < |rows|
  {
    && gateway.luid == rows[i].luid != ourLUID && gateway.index == rows[i].index
    && gateway.nextHop == Some(rows[i].nextHop)
    && rows[i].prefixLength == 0 && rows[i].interfaceUp && rows[i].interfaceMetric.Some?
    && forall j :: 0 <= j < |rows| && rows[j].prefixLength == 0 && rows[j].luid != ourLUID && rows[j].interfaceUp
                   && rows[j].interfaceMetric.Some? ==>
      rows[i].metric + rows[i].interfaceMetric.value <= rows[j].metric + rows[j].interfaceMetric.value
  }

  /** findDefaultGateway. */
  method FindDefaultGateway(rows: seq<ForwardRow>, ourLUID: nat) returns (gateway: Gateway)
    requires ValidRows(rows)
    ensures IsDefaultGateway(rows, ourLUID, gateway)
    ensures gateway == NO_GATEWAY || exists i :: 0 <= i < |rows| && LeadsOut(rows, i, ourLUID, gateway)
  {
    var lowestMetric := MAX_UINT64;
    gateway := NO_GATEWAY;
    ghost var best: Option<nat> := None;
    for i := 0 to |rows|
      invariant best.None? ==> lowestMetric == MAX_UINT64 && gateway == NO_GATEWAY
      invariant best.None? ==> forall j :: 0 <= j < i ==> !IsCandidate(rows[j], ourLUID)
      invariant best.Some? ==> best.value < i && IsBest(rows[..i], ourLUID, best.value)
      invariant best.Some? ==>
        lowestMetric == CombinedMetric(rows[best.value]) && gateway == GatewayOf(rows[best.value])
    {
      var r := rows[i];
      if IsCandidate(r, ourLUID) {
        var combinedMetric := CombinedMetric(r);
        if combinedMetric < lowestMetric {
          lowestMetric := combinedMetric;
          gateway, best := GatewayOf(r), Some(i);
        }
      }
    }
    assert rows[..|rows|] == rows;
    assert best.Some? ==> IsBest(rows, ourLUID, best.value) && LeadsOut(rows, best.value, ourLUID, gateway);
  }

  // ----- The hosts to route -----

  /** A peer, as far as its WebSocket endpoint goes: its URL, if any, and the address its
      host parses as, if it does. */
  datatype WSPeer = WSPeer(dialsWS: bool, address: Option<Addr>)

  const V4_IN_6_BASE: nat := 0xffff_0000_0000

  /** Addr.Unmap: an IPv4 address written as IPv6 becomes IPv4. */
  function Unmap(a: Addr): Addr {
    if a.is6 && V4_IN_6_BASE <= a.value < V4_IN_6_BASE + TWO_32 then Addr(false, a.value - V4_IN_6_BASE, "") else a
  }

  function HostOf(p: WSPeer): Option<Prefix> {
    if p.dialsWS && p.address.Some? then Some(HostPrefix(Unmap(p.address.value))) else None
  }

  /** The peer dials a server of the family. */
  predicate DialsFamily(p: WSPeer, v4: bool) {
    HostOf(p).Some? && HostOf(p).value.addr.is6 != v4
  }

  /** webSocketServerHosts: each server of the family exactly once. */
  method WebSocketServerHosts(peers: seq<WSPeer>, v4: bool) returns (hosts: seq<Prefix>)
    ensures forall j, k :: 0 <= j < k < |hosts| ==> hosts[j] != hosts[k]
    ensures forall h :: h in hosts <==>
      exists i :: 0 <= i < |peers| && DialsFamily(peers[i], v4) && HostOf(peers[i]) == Some(h)
    ensures forall h :: h in hosts ==> h.addr.is6 != v4
  {
    hosts := [];
    for i := 0 to |peers|
      invariant forall j, k :: 0 <= j < k < |hosts| ==> hosts[j] != hosts[k]
      invariant forall h :: h in hosts <==>
        exists j :: 0 <= j < i && DialsFamily(peers[j], v4) && HostOf(peers[j]) == Some(h)
      invariant forall h :: h in hosts ==> h.addr.is6 != v4
    {
      if DialsFamily(peers[i], v4) {
        var prefix := HostOf(peers[i]).value;
        var duplicate := false;
        for k := 0 to |hosts|
          invariant duplicate <==> prefix in hosts[..k]
        {
          duplicate := duplicate || hosts[k] == prefix;
        }
        assert hosts[..|hosts|] == hosts;
        if !duplicate {
          hosts := hosts + [prefix];
        }
      }
    }
  }

  /** The hosts of the two families differ, as the monitor relies on. */
  method HostsOfBothFamilies(peers: seq<WSPeer>) returns (hosts4: seq<Prefix>, hosts6: seq<Prefix>)
    ensures forall h :: h in hosts4 ==> h !in hosts6
    ensures forall i :: 0 <= i < |peers| && HostOf(peers[i]).Some? ==>
      HostOf(peers[i]).value in hosts4 || HostOf(peers[i]).value in hosts6
  {
    hosts4 := WebSocketServerHosts(peers, true);
    hosts6 := WebSocketServerHosts(peers, false);
  }
}
