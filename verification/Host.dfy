/** The task, the configuration and the host that the firewall hooks work with. */
module Host {
  import opened Options
  import opened Tables

  datatype Network = HOST | BRIDGE | NONE | USER | UNKNOWN

  datatype PortMapping = PortMapping(hostPort: nat, containerPort: nat, protocol: string)

  datatype Label = Label(key: string, value: string)

  /** What the hooks read of the task, after the pre-create hooks. */
  datatype Task = Task(network: Network, ports: seq<PortMapping>, labels: seq<Label>)

  datatype IptablesConfig = IptablesConfig(
    bridge: string, prerouting: string, forward: string, postrouting: string,
    ipForwarding: bool, ipMasquerading: bool)

  datatype AclConfig = AclConfig(chain: string, externalInterface: string, defaultAllowedCIDR: seq<string>)

  /** The points of a task's life at which hooks run. */
  datatype When = PreCreate | PreRun | PostRun | PreStop | PostStop

  /** Everything a hook run depends on besides the state of the host. `fault(w)(k)` says that
      driver call number k fails for a reason of its own if it is made by a hook of phase w;
      `ips` is the answer of ContainerGetIPsByInterface; `isIP` and `isCIDR` are net.ParseIP
      and net.ParseCIDR; `otherOk` answers for the hooks that do not touch the firewall, by
      name, phase and number of hooks run before. */
  datatype Env = Env(
    task: Task, iptables: IptablesConfig, acl: AclConfig,
    fault: When -> nat -> bool,
    ips: Option<seq<string>>,
    isIP: string -> bool, isCIDR: string -> bool,
    otherOk: (string, When, nat) -> bool)

  /** The state of the host as the hooks see it: the tables, the number of driver calls made,
      and the cache of container addresses. */
  datatype HostState = HostState(tables: Table, clock: nat, cache: map<string, seq<string>>)

  /** What a hook leaves behind, and whether it returned no error. */
  datatype Result = Result(host: HostState, ok: bool)

  predicate Bridged(n: Network) {
    n == BRIDGE || n == USER
  }

  /** The firewall driver and the cache of container addresses. */
  class Machine {
    var tables: Table
    var clock: nat
    var cache: map<string, seq<string>>

    constructor (tables: Table)
      ensures this.tables == tables && clock == 0 && cache == map[]
    {
      this.tables := tables;
      clock := 0;
      cache := map[];
    }

    function State(): HostState
      reads this
    {
      HostState(tables, clock, cache)
    }

    /** iptables.New */
    method New(fault: nat -> bool) returns (ok: bool)
      modifies this`clock
      ensures ok == !fault(old(clock)) && clock == old(clock) + 1
    {
      ok := !fault(clock);
      clock := clock + 1;
    }

    /** Whether a chain can be listed. */
    method List(at: ChainRef, fault: nat -> bool) returns (ok: bool)
      modifies this`clock
      ensures ok == (!fault(old(clock)) && at in tables) && clock == old(clock) + 1
    {
      ok := !fault(clock) && at in tables;
      clock := clock + 1;
    }

    /** The names of the chains of a table. */
    method ListChains(table: string, fault: nat -> bool) returns (ok: bool, names: seq<string>)
      modifies this`clock
      ensures ok == !fault(old(clock)) && clock == old(clock) + 1
      ensures forall c :: c in names <==> ok && ChainRef(table, c) in tables
    {
      ok := !fault(clock);
      clock := clock + 1;
      names := [];
      if ok {
        var left := tables.Keys;
        while left != {}
          invariant left <= tables.Keys
          invariant forall c :: c in names <==> ChainRef(table, c) in tables && ChainRef(table, c) !in left
          decreases left
        {
          var at :| at in left;
          left := left - {at};
          if at.table == table {
            names := names + [at.chain];
          }
        }
      }
    }

    /** driver.Append or driver.Delete, as the action says. */
    method Do(action: Action, e: Emission, fault: nat -> bool) returns (ok: bool)
      modifies this`tables, this`clock
      ensures ok == (!fault(old(clock)) && Works(old(tables), action, e))
      ensures tables == if ok then Worked(old(tables), action, e) else old(tables)
      ensures clock == old(clock) + 1
    {
      ok := !fault(clock) && Works(tables, action, e);
      if ok {
        tables := Worked(tables, action, e);
      }
      clock := clock + 1;
    }

    /** One call of the action inside a pass that has `rest` still to come; `whole` is what the
        pass as a whole amounts to. */
    method Act(action: Action, stopOnError: bool, e: Emission, fault: nat -> bool,
               ghost whole: Outcome, ghost rest: seq<Emission>) returns (ok: bool)
      requires whole == Pass(tables, action, stopOnError, [e] + rest, fault, clock)
      modifies this`tables, this`clock
      ensures !ok && stopOnError ==> whole == Outcome(tables, clock, false)
      ensures ok || !stopOnError ==> whole == Pass(tables, action, stopOnError, rest, fault, clock)
    {
      assert ([e] + rest)[1..] == rest;
      ok := Do(action, e, fault);
    }
  }
}
