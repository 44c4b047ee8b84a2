/** The registry of tools: names as the model sees them, and what a session's scope lets through. */
module ToolRegistry {
  import opened OrderedMerge

  datatype Tool = Tool(
    name: string, actionLevel: Option<int>, sensitive: bool, requiresConfirmation: bool, sendsEmail: bool)

  /** The two Maps of the registry: tools by their own name, and own names by external name. */
  datatype Tables = Tables(tools: map<string, Tool>, internalNames: map<string, string>)

  function NameOf(t: Tool): string { t.name }

  /** `name.replace(/\./g, '_')` */
  function ToExternal(name: string): (external: string)
    ensures |external| == |name|
  {
    seq(|name|, i requires 0 <= i < |name| => if name[i] == '.' then '_' else name[i])
  }

  function ExternalOf(t: Tool): string { ToExternal(t.name) }

  function Registered(tools: seq<Tool>): Tables {
    if tools == [] then Tables(map[], map[])
    else
      var before, t := Registered(tools[..|tools| - 1]), tools[|tools| - 1];
      Tables(before.tools[t.name := t], before.internalNames[ExternalOf(t) := t.name])
  }

  /** `resolveName`, and the first step of every lookup. */
  function Internal(r: Tables, name: string): string {
    if name in r.internalNames then r.internalNames[name] else name
  }

  /** The definition behind either name, which is also the one `dispatch` runs. */
  function Definition(r: Tables, name: string): Option<Tool> {
    var internal := Internal(r, name);
    if internal in r.tools then Some(r.tools[internal]) else None
  }

  predicate IsReadLike(r: Tables, name: string) {
    var tool := Definition(r, name);
    tool.Some? && !(tool.value.actionLevel.Some? && tool.value.actionLevel.value > 1) && !tool.value.sensitive &&
    !tool.value.requiresConfirmation
  }

  predicate HasPrefix(prefixes: seq<string>, name: string) {
    prefixes != [] && (prefixes[0] <= name || HasPrefix(prefixes[1..], name))
  }

  predicate IsAllowed(r: Tables, name: string, readOnly: bool, allowlist: Option<seq<string>>) {
    var internal := Internal(r, name);
    !(readOnly && !IsReadLike(r, internal)) &&
    (allowlist.Some? && |allowlist.value| > 0 ==> HasPrefix(allowlist.value, internal))
  }

  // ----- what the tables hold

  /** Each name, own or external, belongs to the last tool registered with it. */
  lemma {:induction false} LastRegistered(tools: seq<Tool>, name: string)
    ensures var r, last := Registered(tools), Last(tools, NameOf, name);
            (name in r.tools <==> last.Some?) && (last.Some? ==> r.tools[name] == last.value)
    ensures var r, last := Registered(tools), Last(tools, ExternalOf, name);
            (name in r.internalNames <==> last.Some?) && (last.Some? ==> r.internalNames[name] == last.value.name)
  {
    if tools == [] {
    } else {
      LastRegistered(tools[..|tools| - 1], name);
    }
  }

  lemma ExternalTwice(name: string)
    ensures ToExternal(ToExternal(name)) == ToExternal(name)
    ensures '.' !in ToExternal(name)
    ensures forall i | 0 <= i < |name| :: ToExternal(name)[i] == if name[i] == '.' then '_' else name[i]
  {
  }

  /** Looking a name up twice is looking it up once, whatever names collide. */
  lemma InternalTwice(tools: seq<Tool>, name: string)
    ensures Internal(Registered(tools), Internal(Registered(tools), name)) == Internal(Registered(tools), name)
  {
    var r := Registered(tools);
    var internal := Internal(r, name);
    LastRegistered(tools, name);
    LastRegistered(tools, internal);
    ExternalTwice(name);
    LastHasKey(tools, ExternalOf, name);
    LastHasKey(tools, ExternalOf, internal);
    hide Last, Registered, ToExternal;
    if name in r.internalNames && internal in r.internalNames {
      var u, v := Last(tools, ExternalOf, name).value, Last(tools, ExternalOf, internal).value;
      assert ToExternal(u.name) == name && ToExternal(v.name) == u.name == internal;
      ExternalTwice(v.name);
      assert internal == name;
    }
  }

  lemma {:induction false} LastHasKey<T>(xs: seq<T>, keyOf: T -> string, k: string)
    ensures Last(xs, keyOf, k).Some? ==> Last(xs, keyOf, k).value in xs && keyOf(Last(xs, keyOf, k).value) == k
  {
    if xs == [] || keyOf(xs[|xs| - 1]) == k {
    } else {
      LastHasKey(xs[..|xs| - 1], keyOf, k);
    }
  }

  lemma {:induction false} SomePrefix(prefixes: seq<string>, name: string)
    ensures HasPrefix(prefixes, name) <==> exists i | 0 <= i < |prefixes| :: prefixes[i] <= name
  {
    if prefixes == [] {
    } else {
      SomePrefix(prefixes[1..], name);
      if i :| 0 <= i < |prefixes| && prefixes[i] <= name {
        assert i > 0 ==> prefixes[1..][i - 1] <= name;
      }
    }
  }

  // ----- scope

  /** The own name of the tool starts with an entry of the allowlist; an empty one lists everything. */
  ghost predicate OnList(r: Tables, name: string, allowlist: Option<seq<string>>) {
    allowlist.None? || allowlist.value == [] ||
    exists i | 0 <= i < |allowlist.value| :: allowlist.value[i] <= Internal(r, name)
  }

  /** What the scope lets through is judged by the very tool that is run, for any tools registered
      and any name the model makes up. A tool only reads if its level is one at most, it is not
      sensitive, and there is nothing to confirm. */
  lemma AllowedIffInScope(tools: seq<Tool>, name: string, readOnly: bool, allowlist: Option<seq<string>>)
    ensures var r := Registered(tools);
            IsAllowed(r, name, readOnly, allowlist) <==>
            (readOnly ==> IsReadLike(r, name)) && OnList(r, name, allowlist)
    ensures var r := Registered(tools);
            var tool := Last(tools, NameOf, Internal(r, name));
            IsReadLike(r, name) <==>
            tool.Some? && (tool.value.actionLevel.Some? ==> tool.value.actionLevel.value <= 1) &&
            !tool.value.sensitive && !tool.value.requiresConfirmation
  {
    InternalTwice(tools, name);
    LastRegistered(tools, Internal(Registered(tools), name));
    if allowlist.Some? {
      SomePrefix(allowlist.value, Internal(Registered(tools), name));
    }
  }

  // ----- what the model is offered

  /** The tools offered under a scope, as they stand in the registry. */
  predicate Offered(r: Tables, t: Tool, emailConnected: bool, readOnly: bool, allowlist: Option<seq<string>>) {
    t.name in r.tools && r.tools[t.name] == t && (t.sendsEmail ==> emailConnected) &&
    (readOnly ==> IsReadLike(r, t.name)) &&
    (allowlist.Some? && |allowlist.value| > 0 ==> HasPrefix(allowlist.value, t.name))
  }

  /** A tool that is offered may be used under the name it is offered by, exactly unless another
      tool with that external name was registered later and is itself out of scope. */
  lemma OfferedIsAllowed(tools: seq<Tool>, t: Tool, emailConnected: bool, readOnly: bool,
                         allowlist: Option<seq<string>>)
    requires Offered(Registered(tools), t, emailConnected, readOnly, allowlist)
    ensures var r, last := Registered(tools), Last(tools, ExternalOf, ExternalOf(t));
            last.Some? &&
            (IsAllowed(r, ExternalOf(t), readOnly, allowlist) <==>
             last.value.name == t.name || IsAllowed(r, last.value.name, readOnly, allowlist))
  {
    var r, external := Registered(tools), ExternalOf(t);
    LastRegistered(tools, t.name);
    LastHasKey(tools, NameOf, t.name);
    var i :| 0 <= i < |tools| && tools[i] == t;
    SomeLast(tools, ExternalOf, i);
    LastRegistered(tools, external);
    InternalTwice(tools, external);
    hide Last, Registered, IsReadLike, HasPrefix;
  }

  // ----- the service

  class Registry {
    var tables: Tables

    constructor ()
      ensures tables == Registered([])
    {
      tables := Tables(map[], map[]);
    }

    method Register(more: seq<Tool>, ghost before: seq<Tool>)
      requires tables == Registered(before)
      modifies this
      ensures tables == Registered(before + more)
    {
      assert before + [] == before;
      for i := 0 to |more|
        invariant tables == Registered(before + more[..i])
      {
        assert (before + more[..i + 1])[..|before| + i] == before + more[..i];
        tables := Tables(tables.tools[more[i].name := more[i]],
            tables.internalNames[ToExternal(more[i].name) := more[i].name]);
      }
      assert more[..|more|] == more;
    }
  }
}
