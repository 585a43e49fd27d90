/**
  Model of the package-level registry in internal/command/factory.go. The
  registry is a map from name to command, threaded through explicitly:
  `Register` returns the updated registry and `Resolve` reads one.
  `C` stands for what a command runs; the registry stores it and hands it
  back without looking at it.
 */
module CommandRegistry {
  import opened Wrappers

  /** A command: the name it reports and what it runs. */
  datatype Command<C> = Command(name: string, run: C)

  type Registry<C> = map<string, Command<C>>

  /** The name the map command reports. */
  const MapName: string := "map"

  function Unknown(name: string): string {
    "unknown command " + name
  }

  /** `Register`: the command is stored under its own name, replacing any earlier one. */
  function Register<C>(reg: Registry<C>, cmd: Command<C>): (reg': Registry<C>)
    ensures reg'.Keys == reg.Keys + {cmd.name}
    ensures reg'[cmd.name] == cmd
    ensures forall name :: name in reg && name != cmd.name ==> reg'[name] == reg[name]
  {
    reg[cmd.name := cmd]
  }

  /** `Resolve`: the registered command, or an error for an unknown name. */
  function Resolve<C>(reg: Registry<C>, name: string): (r: Result<Command<C>, string>)
    ensures r.Success? <==> name in reg
    ensures r.Success? ==> r.value == reg[name]
    ensures r.Failure? ==> r.error == Unknown(name)
  {
    if name in reg then Success(reg[name]) else Failure(Unknown(name))
  }

  /** The registry after package initialisation: only the map command, running `mapRun`. */
  function Init<C>(mapRun: C): (reg: Registry<C>)
    ensures reg.Keys == {MapName}
    ensures reg[MapName].run == mapRun
  {
    Register(map[], Command(MapName, mapRun))
  }

  /** A registered command resolves to that very command, payload included. */
  lemma ResolveAfterRegister<C>(reg: Registry<C>, cmd: Command<C>)
    ensures Resolve(Register(reg, cmd), cmd.name) == Success(cmd)
    ensures Resolve(Register(reg, cmd), cmd.name).value.run == cmd.run
  {
  }

  /** Registering one name leaves every other name's outcome as it was. */
  lemma ResolveOtherAfterRegister<C>(reg: Registry<C>, cmd: Command<C>, name: string)
    requires name != cmd.name
    ensures Resolve(Register(reg, cmd), name) == Resolve(reg, name)
  {
  }

  /**
    The last registration under a name wins: two commands reporting the same
    name but running different things leave only the second one behind.
   */
  lemma RegisterTwice<C>(reg: Registry<C>, a: Command<C>, b: Command<C>)
    requires a.name == b.name
    ensures Register(Register(reg, a), b) == Register(reg, b)
    ensures Resolve(Register(Register(reg, a), b), a.name) == Success(b)
    ensures a.run != b.run ==> Resolve(Register(Register(reg, a), b), a.name) != Success(a)
  {
  }

  /** After initialisation "map" resolves to the map command and nothing else resolves. */
  lemma InitResolves<C>(mapRun: C, name: string)
    ensures Resolve(Init(mapRun), "map") == Success(Command("map", mapRun))
    ensures name != "map" ==> Resolve(Init(mapRun), name) == Failure(Unknown(name))
  {
  }

  /** The package's test: a registered "dummy" command resolves under that name to itself. */
  lemma DummyResolves<C>(mapRun: C, dummyRun: C)
    ensures Resolve(Register(Init(mapRun), Command("dummy", dummyRun)), "dummy")
              == Success(Command("dummy", dummyRun))
    ensures Resolve(Register(Init(mapRun), Command("dummy", dummyRun)), "map")
              == Success(Command("map", mapRun))
  {
  }
}
