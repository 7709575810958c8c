/**
 * The command router: a registry of command modules under their lower-cased
 * names, a second map from lower-cased aliases to those names, lookup that
 * prefers a name over an alias, and dispatch that reports whether a command
 * ran and passes its errors on.
 *
 * A command module is reduced to what the router inspects: its `name`, whether
 * `execute` is a function, its `aliases` (missing when not an array), and what
 * its handler does when run, which is either to complete or to throw.
 */
module CommandRouter {
  import opened Wrappers
  import opened JsText

  /** What a command's handler does when it is awaited. */
  datatype Outcome = Completes | Throws(error: string)

  /** A loaded command module; an empty `name` stands for a missing one. */
  datatype CommandModule = CommandModule(name: string, executeIsFunction: bool, aliases: Option<seq<string>>, outcome: Outcome)

  /** A file of the commands directory and its module, or nothing when
   *  requiring it failed. */
  datatype CommandFile = CommandFile(fileName: string, loaded: Option<CommandModule>)

  /** How `executeCommand` settles: it returns a flag or re-throws. */
  datatype Dispatch = Returned(ran: bool) | Rethrown(error: string)

  /** The two maps of the router. */
  datatype Registry = Registry(commands: map<string, CommandModule>, aliases: map<string, string>)

  /** A file is registered when it is a `.js` file that loaded, has a name
   *  and an `execute` function. */
  predicate Loadable(f: CommandFile)
  {
    EndsWith(f.fileName, ".js") && f.loaded.Some? && f.loaded.value.name != "" && f.loaded.value.executeIsFunction
  }

  /** The alias map after pointing each of `names`, lower-cased, at `target`. */
  function AliasAll(aliases: map<string, string>, names: seq<string>, target: string): map<string, string>
    decreases |names|
  {
    if names == [] then aliases
    else AliasAll(aliases, names[..|names| - 1], target)[ToLowerCase(names[|names| - 1]) := target]
  }

  /** The registry after one file. */
  function LoadOne(r: Registry, f: CommandFile): Registry
  {
    if !Loadable(f) then r
    else
      var m := f.loaded.value;
      var name := ToLowerCase(m.name);
      Registry(r.commands[name := m], if m.aliases.Some? then AliasAll(r.aliases, m.aliases.value, name) else r.aliases)
  }

  /** The registry after the files, in directory order. */
  function LoadAll(r: Registry, files: seq<CommandFile>): Registry
    decreases |files|
  {
    if files == [] then r
    else LoadOne(LoadAll(r, files[..|files| - 1]), files[|files| - 1])
  }

  /** `getCommand`: the command under the lower-cased name, else the command
   *  the lower-cased alias points at. */
  function Resolve(r: Registry, commandName: string): Option<CommandModule>
  {
    var name := ToLowerCase(commandName);
    if name in r.commands then Some(r.commands[name])
    else if name in r.aliases && r.aliases[name] in r.commands then Some(r.commands[r.aliases[name]])
    else None
  }

  /** `executeCommand`: false when nothing resolves, true when the handler
   *  completes, and the handler's error re-thrown when it throws. */
  function Execute(r: Registry, commandName: string): Dispatch
  {
    match Resolve(r, commandName)
    case None => Returned(false)
    case Some(m) =>
      match m.outcome
      case Completes => Returned(true)
      case Throws(e) => Rethrown(e)
  }

  // ---------------------------------------------------------------------------
  // Properties of the registry
  // ---------------------------------------------------------------------------

  /** Keys are lower case and every alias points at a registered name. */
  ghost predicate Valid(r: Registry)
  {
    && (forall k :: k in r.commands ==> IsLower(k))
    && (forall k :: k in r.aliases ==> IsLower(k) && r.aliases[k] in r.commands)
  }

  /** Each listed alias, lower-cased, points at `target`; other aliases are
   *  unchanged, and the last listing of an alias wins. */
  lemma {:induction false} AliasAllMaps(aliases: map<string, string>, names: seq<string>, target: string)
    ensures forall k :: k in AliasAll(aliases, names, target) <==> k in aliases || exists i :: 0 <= i < |names| && ToLowerCase(names[i]) == k
    ensures forall i :: 0 <= i < |names| ==> AliasAll(aliases, names, target)[ToLowerCase(names[i])] == target
    ensures forall k :: k in aliases && (forall i :: 0 <= i < |names| ==> ToLowerCase(names[i]) != k) ==>
              AliasAll(aliases, names, target)[k] == aliases[k]
    decreases |names|
  {
    if names != [] {
      var init := names[..|names| - 1];
      AliasAllMaps(aliases, init, target);
      forall k ensures k in AliasAll(aliases, names, target) <==> k in aliases || exists i :: 0 <= i < |names| && ToLowerCase(names[i]) == k {
        if exists i :: 0 <= i < |names| && ToLowerCase(names[i]) == k {
          var i :| 0 <= i < |names| && ToLowerCase(names[i]) == k;
          if i < |names| - 1 {
            assert init[i] == names[i];
          }
        }
        if exists i :: 0 <= i < |init| && ToLowerCase(init[i]) == k {
          var i :| 0 <= i < |init| && ToLowerCase(init[i]) == k;
          assert names[i] == init[i];
        }
      }
      forall i | 0 <= i < |names| ensures AliasAll(aliases, names, target)[ToLowerCase(names[i])] == target {
        if i < |names| - 1 {
          assert init[i] == names[i];
        }
      }
      forall k | k in aliases && (forall i :: 0 <= i < |names| ==> ToLowerCase(names[i]) != k)
        ensures AliasAll(aliases, names, target)[k] == aliases[k]
      {
        assert forall i :: 0 <= i < |init| ==> ToLowerCase(init[i]) != k by {
          forall i | 0 <= i < |init| ensures ToLowerCase(init[i]) != k {
            assert init[i] == names[i];
          }
        }
        assert ToLowerCase(names[|names| - 1]) != k;
      }
    }
  }

  /** Pointing aliases at a registered lower-case name keeps the registry valid. */
  lemma {:induction false} AliasAllValid(r: Registry, names: seq<string>, target: string)
    requires Valid(r) && target in r.commands
    ensures Valid(Registry(r.commands, AliasAll(r.aliases, names, target)))
    decreases |names|
  {
    if names != [] {
      AliasAllValid(r, names[..|names| - 1], target);
      ToLowerCaseIsLower(names[|names| - 1]);
    }
  }

  /** Loading a file keeps the registry valid. */
  lemma LoadOneValid(r: Registry, f: CommandFile)
    requires Valid(r)
    ensures Valid(LoadOne(r, f))
  {
    if Loadable(f) {
      var m := f.loaded.value;
      var name := ToLowerCase(m.name);
      ToLowerCaseIsLower(m.name);
      var r1 := Registry(r.commands[name := m], r.aliases);
      assert Valid(r1);
      if m.aliases.Some? {
        AliasAllValid(r1, m.aliases.value, name);
      }
    }
  }

  /** Loading any files into a valid registry leaves it valid. */
  lemma {:induction false} LoadAllValid(r: Registry, files: seq<CommandFile>)
    requires Valid(r)
    ensures Valid(LoadAll(r, files))
    decreases |files|
  {
    if files != [] {
      LoadAllValid(r, files[..|files| - 1]);
      LoadOneValid(LoadAll(r, files[..|files| - 1]), files[|files| - 1]);
    }
  }

  /** A file that is not loadable changes nothing. */
  lemma LoadOneSkips(r: Registry, f: CommandFile)
    requires !Loadable(f)
    ensures LoadOne(r, f) == r
  {
  }

  /** Loading a module makes its name resolve to it, whatever was registered
   *  before, and points each of its aliases at its lower-cased name. */
  lemma LoadOneRegisters(r: Registry, f: CommandFile)
    requires Loadable(f)
    ensures Resolve(LoadOne(r, f), f.loaded.value.name) == f.loaded
    ensures f.loaded.value.aliases.Some? ==>
              forall a :: a in f.loaded.value.aliases.value ==>
                ToLowerCase(a) in LoadOne(r, f).aliases && LoadOne(r, f).aliases[ToLowerCase(a)] == ToLowerCase(f.loaded.value.name)
  {
    var m := f.loaded.value;
    if m.aliases.Some? {
      AliasAllMaps(r.aliases, m.aliases.value, ToLowerCase(m.name));
      forall a | a in m.aliases.value
        ensures ToLowerCase(a) in LoadOne(r, f).aliases && LoadOne(r, f).aliases[ToLowerCase(a)] == ToLowerCase(m.name)
      {
        var i :| 0 <= i < |m.aliases.value| && m.aliases.value[i] == a;
      }
    }
  }

  /** Lookup ignores case. */
  lemma ResolveIgnoresCase(r: Registry, commandName: string)
    ensures Resolve(r, commandName) == Resolve(r, ToLowerCase(commandName))
  {
    ToLowerCaseIdempotent(commandName);
  }

  /** A name match wins over an alias match. */
  lemma NameBeforeAlias(r: Registry, commandName: string)
    requires ToLowerCase(commandName) in r.commands
    ensures Resolve(r, commandName) == Some(r.commands[ToLowerCase(commandName)])
  {
  }

  /** In a valid registry every alias resolves to the command it names. */
  lemma AliasResolves(r: Registry, alias: string)
    requires Valid(r) && alias in r.aliases && alias !in r.commands
    ensures Resolve(r, alias) == Some(r.commands[r.aliases[alias]])
  {
    ToLowerCaseOfLower(alias);
  }

  /** Dispatch returns false exactly when nothing resolves, returns true when
   *  the resolved handler completes, and re-throws its error otherwise. */
  lemma ExecuteSettles(r: Registry, commandName: string)
    ensures Execute(r, commandName) == Returned(false) <==> Resolve(r, commandName).None?
    ensures Execute(r, commandName) == Returned(true) <==>
              Resolve(r, commandName).Some? && Resolve(r, commandName).value.outcome == Completes
    ensures forall e :: Execute(r, commandName) == Rethrown(e) <==>
              Resolve(r, commandName).Some? && Resolve(r, commandName).value.outcome == Throws(e)
  {
  }

  // ---------------------------------------------------------------------------
  // The manager
  // ---------------------------------------------------------------------------

  class CommandManager {
    var commands: map<string, CommandModule>
    var aliases: map<string, string>

    constructor()
      ensures commands == map[] && aliases == map[]
    {
      commands := map[];
      aliases := map[];
    }

    /** `loadCommands`: registers each loadable file's module under its
     *  lower-cased name and points its aliases at that name, in order. */
    method LoadCommands(files: seq<CommandFile>)
      modifies this
      ensures Registry(commands, aliases) == LoadAll(old(Registry(commands, aliases)), files)
      ensures old(Valid(Registry(commands, aliases))) ==> Valid(Registry(commands, aliases))
    {
      ghost var start := Registry(commands, aliases);
      var i := 0;
      while i < |files|
        invariant 0 <= i <= |files|
        invariant Registry(commands, aliases) == LoadAll(start, files[..i])
      {
        var f := files[i];
        ghost var before := Registry(commands, aliases);
        if EndsWith(f.fileName, ".js") && f.loaded.Some? {
          var command := f.loaded.value;
          if command.name != "" && command.executeIsFunction {
            var name := ToLowerCase(command.name);
            commands := commands[name := command];
            if command.aliases.Some? {
              var list := command.aliases.value;
              ghost var aliasesBefore := aliases;
              var j := 0;
              while j < |list|
                invariant 0 <= j <= |list|
                invariant aliases == AliasAll(aliasesBefore, list[..j], name)
                invariant commands == before.commands[name := command]
              {
                aliases := aliases[ToLowerCase(list[j]) := name];
                assert list[..j + 1][..j] == list[..j];
                j := j + 1;
              }
              assert list[..j] == list;
            }
          }
        }
        assert Registry(commands, aliases) == LoadOne(before, f);
        assert files[..i + 1][..i] == files[..i];
        i := i + 1;
      }
      assert files[..i] == files;
      if Valid(start) {
        LoadAllValid(start, files);
      }
    }

    /** `getCommand`. */
    function GetCommand(commandName: string): (r: Option<CommandModule>)
      reads this
      ensures r.Some? ==> r.value in commands.Values
      ensures r == Resolve(Registry(commands, aliases), commandName)
    {
      Resolve(Registry(commands, aliases), commandName)
    }

    /** `executeCommand`. */
    function ExecuteCommand(commandName: string): (d: Dispatch)
      reads this
      ensures d == Returned(false) <==> GetCommand(commandName).None?
      ensures d == Execute(Registry(commands, aliases), commandName)
    {
      Execute(Registry(commands, aliases), commandName)
    }
  }
}
