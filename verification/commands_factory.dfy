/**
  Model of the command factory in internal/commands/factory.go: providers
  are registered under the name they report, and `Build` hands back the
  registered provider's command or an error naming the missing command.
  `C` stands for the built command, which the factory never inspects.
 */
module CommandsFactory {
  import opened Wrappers

  /** A command provider: the name it reports and the command it builds. */
  datatype Provider<C> = Provider(name: string, command: C)

  datatype Factory<C> = Factory(cmds: map<string, Provider<C>>)

  function NotFound(name: string): string {
    "command " + name + " not found"
  }

  /** `NewFactory`: nothing registered. */
  function NewFactory<C>(): (f: Factory<C>)
    ensures forall name :: name !in f.cmds
  {
    Factory(map[])
  }

  /** `Register`: the provider is stored under its own name, replacing any earlier one. */
  function Register<C>(f: Factory<C>, p: Provider<C>): (f': Factory<C>)
    ensures f'.cmds.Keys == f.cmds.Keys + {p.name}
    ensures f'.cmds[p.name] == p
    ensures forall name :: name in f.cmds && name != p.name ==> f'.cmds[name] == f.cmds[name]
  {
    Factory(f.cmds[p.name := p])
  }

  /** `Build`: the registered provider's command, or an error for an unknown name. */
  function Build<C>(f: Factory<C>, name: string): (r: Result<C, string>)
    ensures r.Success? <==> name in f.cmds
    ensures r.Success? ==> r.value == f.cmds[name].command
    ensures r.Failure? ==> r.error == NotFound(name)
  {
    if name in f.cmds then Success(f.cmds[name].command) else Failure(NotFound(name))
  }

  /** A new factory builds nothing. */
  lemma NewFactoryBuildsNothing<C>(name: string)
    ensures Build(NewFactory<C>(), name) == Failure(NotFound(name))
  {
  }

  /** After registering, building the provider's name yields its command. */
  lemma BuildAfterRegister<C>(f: Factory<C>, p: Provider<C>)
    ensures Build(Register(f, p), p.name) == Success(p.command)
  {
  }

  /** Registering one name leaves every other name's outcome as it was. */
  lemma BuildOtherAfterRegister<C>(f: Factory<C>, p: Provider<C>, name: string)
    requires name != p.name
    ensures Build(Register(f, p), name) == Build(f, name)
  {
  }

  /** The last registration under a name wins. */
  lemma RegisterTwice<C>(f: Factory<C>, p: Provider<C>, q: Provider<C>)
    requires p.name == q.name
    ensures Register(Register(f, p), q) == Register(f, q)
  {
  }
}
