/**
 * CommandBuilder: the registrar a plugin class uses to turn the class
 * methods it declares inside `UserCommands { ... }` into commands.
 *
 * Annotation calls made inside the block are collected; declaring a
 * method then builds an inline command from them, publishes it under its
 * name, registers its key and menu item, and wraps the method so that
 * calling it records the command in the history. Ruby reports each
 * declaration to the class through `singleton_method_added`; here that
 * event is the explicit call `Declare`.
 */
module Builder {
  import opened Wrappers
  import Buffers
  import Commands
  import History

  // ---------------------------------------------------------- annotations

  /** The pending annotations; `nil` and the empty hash are both `NoAnnotations`. */
  datatype Annotations = Annotations(
    menu: Option<string>,
    icon: Option<string>,
    key: Option<string>,
    scope: Option<string>,
    sensitive: Option<bool>,
    primitive: Option<bool>,
    inputs: Option<seq<string>>,
    output: Option<string>)

  const NoAnnotations := Annotations(None, None, None, None, None, None, None, None)

  /** One call of an annotation method with its argument. */
  datatype Annotator =
    | Menu(menu: string)
    | Icon(icon: string)
    | Key(key: string)
    | Scope(scope: string)
    | Sensitive(sensitive: bool)
    | Primitive(primitive: bool)
    | Inputs(inputs: seq<string>)
    | Input(input: string)
    | Output(output: string)

  /** The hash key an annotation method stores under. */
  datatype Slot = MenuSlot | IconSlot | KeySlot | ScopeSlot | SensitiveSlot | PrimitiveSlot | InputsSlot | OutputSlot

  function SlotOf(x: Annotator): Slot {
    match x
    case Menu(_) => MenuSlot
    case Icon(_) => IconSlot
    case Key(_) => KeySlot
    case Scope(_) => ScopeSlot
    case Sensitive(_) => SensitiveSlot
    case Primitive(_) => PrimitiveSlot
    case Inputs(_) => InputsSlot
    case Input(_) => InputsSlot
    case Output(_) => OutputSlot
  }

  /** `annotate name, val`: the value stored under the annotator's slot, the others untouched. */
  function Annotated(a: Annotations, x: Annotator): (r: Annotations)
    ensures x.Menu? ==> r.menu == Some(x.menu)
    ensures x.Icon? ==> r.icon == Some(x.icon)
    ensures x.Key? ==> r.key == Some(x.key)
    ensures x.Scope? ==> r.scope == Some(x.scope)
    ensures x.Sensitive? ==> r.sensitive == Some(x.sensitive)
    ensures x.Primitive? ==> r.primitive == Some(x.primitive)
    ensures x.Inputs? ==> r.inputs == Some(x.inputs)
    ensures x.Input? ==> r.inputs == Some([x.input])
    ensures x.Output? ==> r.output == Some(x.output)
    ensures SlotOf(x) != MenuSlot ==> r.menu == a.menu
    ensures SlotOf(x) != IconSlot ==> r.icon == a.icon
    ensures SlotOf(x) != KeySlot ==> r.key == a.key
    ensures SlotOf(x) != ScopeSlot ==> r.scope == a.scope
    ensures SlotOf(x) != SensitiveSlot ==> r.sensitive == a.sensitive
    ensures SlotOf(x) != PrimitiveSlot ==> r.primitive == a.primitive
    ensures SlotOf(x) != InputsSlot ==> r.inputs == a.inputs
    ensures SlotOf(x) != OutputSlot ==> r.output == a.output
  {
    match x
    case Menu(v) => a.(menu := Some(v))
    case Icon(v) => a.(icon := Some(v))
    case Key(v) => a.(key := Some(v))
    case Scope(v) => a.(scope := Some(v))
    case Sensitive(v) => a.(sensitive := Some(v))
    case Primitive(v) => a.(primitive := Some(v))
    case Inputs(v) => a.(inputs := Some(v))
    case Input(v) => a.(inputs := Some([v]))
    case Output(v) => a.(output := Some(v))
  }

  /** Of two annotations for the same slot, the later one is what remains. */
  lemma LaterAnnotationWins(a: Annotations, x: Annotator, y: Annotator)
    requires SlotOf(x) == SlotOf(y)
    ensures Annotated(Annotated(a, x), y) == Annotated(a, y)
  {
  }

  /** Annotations for different slots can be given in either order. */
  lemma AnnotationsCommute(a: Annotations, x: Annotator, y: Annotator)
    requires SlotOf(x) != SlotOf(y)
    ensures Annotated(Annotated(a, x), y) == Annotated(Annotated(a, y), x)
  {
  }

  /** `input s` is `inputs s` with a single input. */
  lemma InputIsOneInput(a: Annotations, s: string)
    ensures Annotated(a, Input(s)) == Annotated(a, Inputs([s]))
  {
  }

  // ---------------------------------------------------------------- names

  /** `s.gsub("//", "/")`: every pair of slashes, scanned from the left without overlap, made one. */
  function Collapse(s: string): (r: string)
    ensures |r| <= |s|
  {
    if |s| >= 2 && s[0] == '/' && s[1] == '/' then "/" + Collapse(s[2..])
    else if s == [] then []
    else [s[0]] + Collapse(s[1..])
  }

  predicate HasDoubleSlash(s: string) {
    exists i :: 0 <= i < |s| - 1 && s[i] == '/' && s[i + 1] == '/'
  }

  /** A name without a double slash is left as it is. */
  lemma {:induction false} CollapseKeepsPlainName(s: string)
    requires !HasDoubleSlash(s)
    ensures Collapse(s) == s
    decreases |s|
  {
    if s != [] {
      var rest := s[1..];
      forall i | 0 <= i < |rest| - 1
        ensures !(rest[i] == '/' && rest[i + 1] == '/')
      {
        assert rest[i] == s[i + 1] && rest[i + 1] == s[i + 2];
      }
      CollapseKeepsPlainName(rest);
      assert [s[0]] + rest == s;
    }
  }

  /** A prefix holding no slash passes through unchanged. */
  lemma {:induction false} CollapsePassesSlashFree(p: string, t: string)
    requires '/' !in p
    ensures Collapse(p + t) == p + Collapse(t)
    decreases |p|
  {
    if p == [] {
      assert p + t == t;
    } else {
      assert p[0] in p;
      assert (p + t)[0] == p[0] && (p + t)[1..] == p[1..] + t;
      CollapsePassesSlashFree(p[1..], t);
      assert [p[0]] + (p[1..] + Collapse(t)) == p + Collapse(t);
    }
  }

  /** `n` slashes in a row. */
  function Slashes(n: nat): (r: string)
    ensures |r| == n && forall i :: 0 <= i < n ==> r[i] == '/'
  {
    seq(n, _ => '/')
  }

  /**
   * The collapse makes a single pass: a run of `n` slashes becomes a run of
   * `(n + 1) / 2`, so three slashes become two, not one.
   */
  lemma {:induction false} CollapseIsSinglePass(n: nat)
    ensures Collapse(Slashes(n)) == Slashes((n + 1) / 2)
    decreases n
  {
    var run := Slashes(n);
    if n == 1 {
      assert run[1..] == [];
      assert Collapse(run) == [run[0]] + Collapse([]);
    } else if n >= 2 {
      assert run[2..] == Slashes(n - 2);
      CollapseIsSinglePass(n - 2);
      assert Collapse(run) == "/" + Slashes((n - 1) / 2);
      assert (n - 1) / 2 + 1 == (n + 1) / 2;
    }
  }

  /** `@db_scope` as `UserCommands(scope)` sets it. */
  function DbScope(owner: string, scope: string): string {
    owner + "/" + scope
  }

  /** `"#{db_scope}/#{method_name}".gsub("//", "/")` */
  function CommandName(dbScope: string, methodName: string): string {
    Collapse(dbScope + "/" + methodName)
  }

  /** A leading pair of slashes becomes one. */
  lemma CollapseLeadingPair(t: string)
    ensures Collapse("//" + t) == "/" + Collapse(t)
  {
    var u := "//" + t;
    assert u[0] == '/' && u[1] == '/' && u[2..] == t;
  }

  /** A name without slashes is left as it is. */
  lemma CollapseKeepsSlashFree(m: string)
    requires '/' !in m
    ensures Collapse(m) == m
  {
    forall i | 0 <= i < |m| - 1
      ensures m[i] != '/'
    {
      assert m[i] in m;
    }
    CollapseKeepsPlainName(m);
  }

  lemma EmptyScopeJoin(owner: string, methodName: string)
    ensures DbScope(owner, "") + "/" + methodName == owner + ("//" + methodName)
  {
    var l, r := DbScope(owner, "") + "/" + methodName, owner + ("//" + methodName);
    forall i | 0 <= i < |l|
      ensures l[i] == r[i]
    {
    }
  }

  /** With no scope, a command is named by its class and method, one slash between them. */
  lemma UnscopedName(owner: string, methodName: string)
    requires '/' !in owner && '/' !in methodName
    ensures CommandName(DbScope(owner, ""), methodName) == owner + "/" + methodName
  {
    var rest := "//" + methodName;
    EmptyScopeJoin(owner, methodName);
    CollapsePassesSlashFree(owner, rest);
    CollapseLeadingPair(methodName);
    CollapseKeepsSlashFree(methodName);
  }

  /** With a scope, the scope sits between class and method. */
  lemma ScopedName(owner: string, scope: string, methodName: string)
    requires '/' !in owner && '/' !in scope && '/' !in methodName && scope != []
    ensures CommandName(DbScope(owner, scope), methodName) == owner + "/" + scope + "/" + methodName
  {
    var full := owner + "/" + scope + "/" + methodName;
    assert DbScope(owner, scope) + "/" + methodName == full;
    forall i | 0 <= i < |full| - 1 && full[i] == '/'
      ensures full[i + 1] != '/'
    {
      if i == |owner| {
        assert full[i + 1] == scope[0];
      } else {
        assert i == |owner| + 1 + |scope|;
        assert full[i + 1] in methodName;
      }
    }
    CollapseKeepsPlainName(full);
  }

  // ------------------------------------------------------------ key names

  /** `s.split("/")` before Ruby drops the trailing empty fields: every field, empty ones included. */
  function Fields(s: string): (r: seq<string>)
    ensures |r| >= 1
  {
    if s == [] then [[]]
    else if s[|s| - 1] == '/' then Fields(s[..|s| - 1]) + [[]]
    else
      var f := Fields(s[..|s| - 1]);
      f[..|f| - 1] + [f[|f| - 1] + [s[|s| - 1]]]
  }

  /** Ruby's `split` drops the empty fields at the end. */
  function DropTrailingEmpty(fs: seq<string>): (r: seq<string>)
    ensures |r| <= |fs| && r == fs[..|r|]
    ensures r == [] || r[|r| - 1] != []
  {
    if fs == [] then []
    else if fs[|fs| - 1] == [] then DropTrailingEmpty(fs[..|fs| - 1])
    else fs
  }

  /** `k.split("/").last`: the key name stored on the command. */
  function StoredKey(k: string): Option<string> {
    var fs := DropTrailingEmpty(Fields(k));
    if fs == [] then None else Some(fs[|fs| - 1])
  }

  /** `k` without its trailing slashes. */
  function TrimSlashes(k: string): (r: string)
    ensures |r| <= |k| && r == k[..|r|]
    ensures r == [] || r[|r| - 1] != '/'
    ensures forall i :: |r| <= i < |k| ==> k[i] == '/'
  {
    if k != [] && k[|k| - 1] == '/' then TrimSlashes(k[..|k| - 1]) else k
  }

  /** The part of `s` after its last slash, all of `s` when it has none. */
  function AfterLastSlash(s: string): (r: string)
    ensures |r| <= |s| && r == s[|s| - |r|..]
    ensures '/' !in r
    ensures |r| < |s| ==> s[|s| - |r| - 1] == '/'
  {
    if s == [] || s[|s| - 1] == '/' then [] else AfterLastSlash(s[..|s| - 1]) + [s[|s| - 1]]
  }

  /** The last field of a split is what follows the last slash. */
  lemma {:induction false} LastField(s: string)
    ensures Fields(s)[|Fields(s)| - 1] == AfterLastSlash(s)
    decreases |s|
  {
    if s != [] {
      LastField(s[..|s| - 1]);
    }
  }

  /**
   * The key name a command keeps is the last run of characters between
   * slashes, trailing slashes ignored; a key made only of slashes, or the
   * empty key, keeps no name.
   */
  lemma {:induction false} StoredKeyIsLastName(k: string)
    ensures var t := TrimSlashes(k);
      StoredKey(k) == if t == [] then None else Some(AfterLastSlash(t))
    decreases |k|
  {
    if k == [] {
    } else if k[|k| - 1] == '/' {
      var init := k[..|k| - 1];
      StoredKeyIsLastName(init);
      TrailingSlashIgnored(k);
    } else {
      LastField(k);
    }
  }

  /** A trailing slash adds only an empty field, which the split drops. */
  lemma TrailingSlashIgnored(k: string)
    requires k != [] && k[|k| - 1] == '/'
    ensures StoredKey(k) == StoredKey(k[..|k| - 1])
  {
    var init := k[..|k| - 1];
    var fs := Fields(init);
    assert Fields(k) == fs + [[]];
    assert (fs + [[]])[..|fs|] == fs;
    assert DropTrailingEmpty(fs + [[]]) == DropTrailingEmpty(fs);
  }

  /** A stored key name is non-empty and holds no slash; there is none exactly when the key is all slashes. */
  lemma StoredKeyShape(k: string)
    ensures StoredKey(k).Some? ==> StoredKey(k).value != [] && '/' !in StoredKey(k).value
    ensures StoredKey(k).None? <==> forall i :: 0 <= i < |k| ==> k[i] == '/'
  {
    StoredKeyIsLastName(k);
    var t := TrimSlashes(k);
    if t != [] {
      assert t[|t| - 1] == k[|t| - 1] != '/';
    }
  }

  // ------------------------------------------------------------- commands

  /**
   * The InlineCommand `singleton_method_added` builds for `methodName` from
   * the pending annotations. Its body sends the method's name to the class,
   * so running it runs the wrapped method.
   */
  function BuildCommand(dbScope: string, a: Annotations, methodName: string): (com: Commands.Command)
    ensures com.name == CommandName(dbScope, methodName)
    ensures com.scope == a.scope && com.sensitive == a.sensitive
    ensures com.inputs == a.inputs && com.output == a.output
    ensures com.key == (if a.key.Some? then StoredKey(a.key.value) else None)
    ensures com.input.None? && com.fallbackInput.None?
    ensures com.body == Commands.SendsTo(methodName)
  {
    Commands.Command(
      name := CommandName(dbScope, methodName),
      scope := a.scope,
      key := if a.key.Some? then StoredKey(a.key.value) else None,
      inputs := a.inputs,
      output := a.output,
      sensitive := a.sensitive,
      input := None,
      fallbackInput := None,
      body := Commands.SendsTo(methodName))
  }

  /**
   * The registrar sets `inputs` and never `@input` or `@fallback_input`,
   * so a command it built reads no input from the tab.
   */
  lemma BuiltCommandReadsNoInput(dbScope: string, a: Annotations, methodName: string, b: Buffers.Buffer, ctx: Commands.Context)
    requires b.Valid() && ctx.FitsIn(b.text)
    ensures Commands.GetInput(BuildCommand(dbScope, a, methodName), b, ctx).None?
  {
  }

  /** The name a method is kept under once `alias_method` has run. */
  function AliasName(methodName: string): string {
    "__defined_" + methodName
  }

  const OutsideUserCommands := "Attempting to annotate a command outside UserCommands { ... }"

  // -------------------------------------------------------- registrar state

  /**
   * The registrar's state: its class variables, and what it has handed to
   * the command bus (an overwriting map from names to commands), the
   * keymap and the menu builder (each a log of its calls), and the
   * wrappers it installed (each method name with the command it records).
   */
  datatype State = State(
    dbScope: string,
    defining: bool,
    aliasing: bool,
    annotations: Annotations,
    registry: map<string, Commands.Command>,
    keymap: seq<(string, Commands.Command)>,
    menus: seq<(string, string)>,
    wrapped: map<string, Commands.Command>)

  /** The state `singleton_method_added(methodName)` leaves. */
  function Declared(s: State, methodName: string): (r: State)
    ensures !s.defining || s.aliasing ==> r == s
    ensures s.defining && !s.aliasing ==> !r.aliasing && r.annotations == NoAnnotations
    ensures r.dbScope == s.dbScope && r.defining == s.defining
  {
    if s.defining && !s.aliasing then
      var com := BuildCommand(s.dbScope, s.annotations, methodName);
      s.(registry := s.registry[com.name := com],
         keymap := s.keymap + (if s.annotations.key.Some? then [(s.annotations.key.value, com)] else []),
         menus := s.menus + (if s.annotations.menu.Some? then [("menubar/" + s.annotations.menu.value, com.name)] else []),
         wrapped := s.wrapped[methodName := com],
         aliasing := false,
         annotations := NoAnnotations)
    else s
  }

  /**
   * The command a declared method's wrapper records is the one published
   * under the command's name, and its key and menu item are registered
   * exactly when they were annotated.
   */
  lemma DeclaredPublishes(s: State, methodName: string)
    requires s.defining && !s.aliasing
    ensures var r := Declared(s, methodName);
      var name := CommandName(s.dbScope, methodName);
      && methodName in r.wrapped && name in r.registry
      && r.wrapped[methodName] == r.registry[name] == BuildCommand(s.dbScope, s.annotations, methodName)
      && r.registry.Keys == s.registry.Keys + {name}
      && (forall n :: n in s.registry && n != name ==> r.registry[n] == s.registry[n])
      && r.wrapped.Keys == s.wrapped.Keys + {methodName}
      && (forall m :: m in s.wrapped && m != methodName ==> r.wrapped[m] == s.wrapped[m])
      && (s.annotations.key.None? ==> r.keymap == s.keymap)
      && (s.annotations.key.Some? ==> r.keymap == s.keymap + [(s.annotations.key.value, r.registry[name])])
      && (s.annotations.menu.None? ==> r.menus == s.menus)
      && (s.annotations.menu.Some? ==> r.menus == s.menus + [("menubar/" + s.annotations.menu.value, name)])
  {
  }

  /**
   * As written, calling a declared method's command runs `self.send` on the
   * wrapper, which comes to `true`: the command forwards `true` to
   * `direct_output`, never the value the declared method came to.
   */
  lemma DeclaredCommandForwardsTrue(s: State, methodName: string, c: History.Call)
    requires s.defining && !s.aliasing && c.methodName == methodName
    ensures var r := Declared(s, methodName);
      var com := r.registry[CommandName(s.dbScope, methodName)];
      var forwarded := Commands.Forwarded(Commands.Returned(History.Result(r.wrapped, c)));
      && com.body == Commands.SendsTo(methodName)
      && forwarded == Some(Commands.True)
      && (c.result.Str? ==> forwarded != Some(c.result))
  {
    DeclaredPublishes(s, methodName);
  }

  /**
   * With the wrapper returning the wrapped method's value, a declared
   * method's command forwards what the method came to: a string is handed
   * to `direct_output` as it is, and nil or `false` hand over nothing.
   */
  lemma DeclaredCommandForwardsMethodValue(s: State, methodName: string, c: History.Call)
    requires s.defining && !s.aliasing && c.methodName == methodName
    ensures var r := Declared(s, methodName);
      var forwarded := Commands.Forwarded(Commands.Returned(History.ResultRestoring(r.wrapped, c)));
      && (c.result.Str? ==> forwarded == Some(c.result))
      && (!Commands.Truthy(c.result) ==> forwarded.None?)
  {
  }

  /** Steps of a `UserCommands` block: an annotation call, or a method declaration. */
  datatype Step = Note(annotator: Annotator) | Define(methodName: string)

  /** The state after the steps, taken one after the other while defining. */
  function Steps(s: State, steps: seq<Step>): (r: State)
    requires s.defining && !s.aliasing
    ensures r.defining && !r.aliasing && r.dbScope == s.dbScope
    decreases |steps|
  {
    if steps == [] then s
    else
      var next := match steps[0]
        case Note(x) => s.(annotations := Annotated(s.annotations, x))
        case Define(m) => Declared(s, m);
      Steps(next, steps[1..])
  }

  /** The annotations pending after `steps`: the notes made since the last declaration. */
  function Pending(start: Annotations, steps: seq<Step>): Annotations
    decreases |steps|
  {
    if steps == [] then start
    else match steps[|steps| - 1]
      case Define(_) => NoAnnotations
      case Note(x) => Annotated(Pending(start, steps[..|steps| - 1]), x)
  }

  /** Annotations reach only the next declaration: what is pending is what was noted since the last one. */
  lemma {:induction false} StepsLeavePending(s: State, steps: seq<Step>)
    requires s.defining && !s.aliasing
    ensures Steps(s, steps).annotations == Pending(s.annotations, steps)
    decreases |steps|
  {
    if steps != [] {
      StepsSnoc(s, steps[..|steps| - 1], steps[|steps| - 1]);
      assert steps[..|steps| - 1] + [steps[|steps| - 1]] == steps;
      StepsLeavePending(s, steps[..|steps| - 1]);
    }
  }

  /** Running one more step after `steps`. */
  lemma {:induction false} StepsSnoc(s: State, steps: seq<Step>, last: Step)
    requires s.defining && !s.aliasing
    ensures Steps(s, steps + [last]) == Steps(Steps(s, steps), [last])
    decreases |steps|
  {
    if steps != [] {
      assert (steps + [last])[0] == steps[0];
      assert (steps + [last])[1..] == steps[1..] + [last];
      var next := match steps[0]
        case Note(x) => s.(annotations := Annotated(s.annotations, x))
        case Define(m) => Declared(s, m);
      StepsSnoc(next, steps[1..], last);
    }
  }

  /** Every method declared in the block has its command published and its wrapper installed; nothing is unpublished. */
  lemma {:induction false} StepsPublish(s: State, steps: seq<Step>)
    requires s.defining && !s.aliasing
    ensures var r := Steps(s, steps);
      && (forall i :: 0 <= i < |steps| && steps[i].Define? ==>
            CommandName(s.dbScope, steps[i].methodName) in r.registry && steps[i].methodName in r.wrapped)
      && s.registry.Keys <= r.registry.Keys
      && s.wrapped.Keys <= r.wrapped.Keys
    decreases |steps|
  {
    if steps != [] {
      var next := match steps[0]
        case Note(x) => s.(annotations := Annotated(s.annotations, x))
        case Define(m) => Declared(s, m);
      StepsPublish(next, steps[1..]);
      assert forall i :: 1 <= i < |steps| ==> steps[i] == steps[1..][i - 1];
    }
  }

  // ---------------------------------------------------------- the registrar

  /** The class-level state CommandBuilder adds to a plugin class. */
  class Registrar {
    const owner: string
    var dbScope: string
    var defining: bool
    var aliasing: bool
    var annotations: Annotations
    var registry: map<string, Commands.Command>
    var keymap: seq<(string, Commands.Command)>
    var menus: seq<(string, string)>
    var wrapped: map<string, Commands.Command>

    function Current(): State
      reads this
    {
      State(dbScope, defining, aliasing, annotations, registry, keymap, menus, wrapped)
    }

    /** `CommandBuilder.enable(klass)` on a class named `owner`: nothing defined yet. */
    constructor (owner: string)
      ensures this.owner == owner
      ensures Current() == State("", false, false, NoAnnotations, map[], [], [], map[])
    {
      this.owner := owner;
      dbScope, defining, aliasing, annotations := "", false, false, NoAnnotations;
      registry, keymap, menus, wrapped := map[], [], [], map[];
    }

    method Become(s: State)
      modifies this
      ensures Current() == s
    {
      dbScope, defining, aliasing, annotations := s.dbScope, s.defining, s.aliasing, s.annotations;
      registry, keymap, menus, wrapped := s.registry, s.keymap, s.menus, s.wrapped;
    }

    /** `start_defining_commands` */
    method StartDefining()
      modifies this
      ensures Current() == old(Current()).(annotations := NoAnnotations, aliasing := false, defining := true)
    {
      annotations, aliasing, defining := NoAnnotations, false, true;
    }

    /** `stop_defining_commands` */
    method StopDefining()
      modifies this
      ensures Current() == old(Current()).(annotations := NoAnnotations, aliasing := false, defining := false)
    {
      annotations, aliasing, defining := NoAnnotations, false, false;
    }

    /** `check_defining_commands`: the misuse error outside a block. */
    method CheckDefining() returns (r: Outcome<string>)
      ensures r == if defining then Pass else Fail(OutsideUserCommands)
    {
      r := if defining then Pass else Fail(OutsideUserCommands);
    }

    /** `annotate` through one of the annotation methods; outside a block it fails and changes nothing. */
    method Annotate(x: Annotator) returns (r: Outcome<string>)
      modifies this
      ensures r.Pass? <==> old(defining)
      ensures r.Fail? ==> r.error == OutsideUserCommands && Current() == old(Current())
      ensures r.Pass? ==> Current() == old(Current()).(annotations := Annotated(old(annotations), x))
    {
      r := CheckDefining();
      if r.Pass? {
        annotations := Annotated(annotations, x);
      }
    }

    /**
     * `singleton_method_added(methodName)`. Aliasing the method and
     * defining its wrapper each report a declaration again; with
     * `aliasing` set those reports are ignored.
     */
    method Declare(methodName: string)
      modifies this
      ensures Current() == Declared(old(Current()), methodName)
      decreases if aliasing then 0 else 1
    {
      if defining && !aliasing {
        var com := BuildCommand(dbScope, annotations, methodName);
        if annotations.key.Some? {
          keymap := keymap + [(annotations.key.value, com)];
        }
        registry := registry[com.name := com];
        if annotations.menu.Some? {
          menus := menus + [("menubar/" + annotations.menu.value, com.name)];
        }
        aliasing := true;
        ghost var during := Current();
        Declare(AliasName(methodName));
        Declare(methodName);
        assert Current() == during;
        wrapped := wrapped[methodName := com];
        aliasing := false;
        annotations := NoAnnotations;
      }
    }

    /** `UserCommands(scope) { ... }`: the block's steps run between start and stop. */
    method UserCommands(scope: string, steps: seq<Step>)
      modifies this
      ensures var inside := old(Current()).(dbScope := DbScope(owner, scope), annotations := NoAnnotations, aliasing := false, defining := true);
        Current() == Steps(inside, steps).(annotations := NoAnnotations, aliasing := false, defining := false)
    {
      dbScope := DbScope(owner, scope);
      StartDefining();
      ghost var inside := Current();
      for i := 0 to |steps|
        invariant Current() == Steps(inside, steps[..i])
      {
        StepsSnoc(inside, steps[..i], steps[i]);
        assert steps[..i + 1] == steps[..i] + [steps[i]];
        assert [steps[i]][1..] == [];
        match steps[i]
        case Note(x) => {
          var _ := Annotate(x);
        }
        case Define(m) => {
          Declare(m);
        }
      }
      assert steps[..|steps|] == steps;
      StopDefining();
    }
  }
}
