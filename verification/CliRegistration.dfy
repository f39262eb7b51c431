/** How applications build the command tree: every tree that registration can build, its assertions
    holding, is one that the laws of the command line are about. */
module CliRegistration {
  import opened CliTree
  import opened CliModel
  import opened CliLaws
  import opened CliDelivery

  const DO_HOOK: nat := 1
  const CONFIG: nat := 2
  const REPEAT: nat := 3
  const MODE: nat := 4
  const SUBOPTIONS: nat := 5
  const EXPANSION: nat := 6
  const BRIEF: nat := 7

  const SLOTS: nat := 3

  /** A parameter as `init_param` leaves it. */
  function Bare(kind: Kind, name: string, hasCallback: bool): Param {
    Param(kind, name, INVALID, ROOT, [], hasCallback, false, Plain, -1, _ => true)
  }

  /** The parameters that are there before anything else: the root and its hooks for `config` and
      `repeat`, the do hook with its three capability slots filled, the capability parameters. */
  function Initial(): Tree {
    var slots := [MODE, SUBOPTIONS, EXPANSION];
    Tree([Bare(Cmd, "ROOT", false).(options := slots + [CONFIG, REPEAT]),
          Bare(Cmd, "DO_HOOK", false).(options := [SUBOPTIONS, SUBOPTIONS, EXPANSION]),
          Bare(Cmd, "config", true), Bare(Cmd, "repeat", true),
          Bare(Cmd, "/", true), Bare(Cmd, "?", true), Bare(Cmd, ".", true), Bare(Cmd, "brief", true)],
         DO_HOOK, CONFIG, REPEAT, MODE, SUBOPTIONS, EXPANSION, BRIEF)
  }

  /** The options of `p` once its capability slots are filled. */
  function Slots(t: Tree, p: nat): seq<nat>
    requires Has(t, p)
  {
    if t.params[p].options == [] then [t.mode, t.suboptions, t.expansion] else t.params[p].options
  }

  function WithOptions(t: Tree, p: nat, options: seq<nat>): Tree
    requires Has(t, p)
  {
    t.(params := t.params[p := t.params[p].(options := options)])
  }

  /** `libcli_register_param` for a parameter just made by `init_param`. */
  function Register(t: Tree, p: nat, child: Param): Tree
    requires Has(t, p)
  {
    var t' := WithOptions(t, p, Slots(t, p) + [|t.params|]);
    t'.(params := t'.params + [child.(parent := p, options := [])])
  }

  /** `libcli_register_param` for a hook that is also wanted below the do hook. */
  function HookUp(t: Tree, o: nat): Tree
    requires Has(t, t.doHook)
  {
    WithOptions(t, t.doHook, t.params[t.doHook].options + [o])
  }

  /** `enable_show_extension_param_brief`. */
  function EnableBrief(t: Tree, p: nat): Tree
    requires Has(t, p)
  {
    WithOptions(t, p, Slots(t, p) + [t.brief])
  }

  /** What comes behind the capability slots: children and the brief extension. */
  function Offered(t: Tree, p: nat): seq<nat>
    requires Has(t, p)
  {
    if |t.params[p].options| < SLOTS then [] else t.params[p].options[SLOTS..]
  }

  /** `support_cmd_negation` adds a parameter `no` below `p`, which offers all that `p` offers so far. */
  function Negate(t: Tree, p: nat): Tree
    requires Has(t, p)
  {
    var no := Bare(NoCmd, "no", true).(parent := p,
        options := [t.suboptions, t.suboptions, t.expansion] + Offered(t, p));
    var t' := WithOptions(t, p, t.params[p].options + [|t.params|]);
    t'.(params := t'.params + [no])
  }

  /** There is a `no` already; another one is refused. */
  predicate Negated(t: Tree, p: nat)
    requires Has(t, p)
  {
    exists o | o in t.params[p].options :: Has(t, o) && t.params[o].kind.NoCmd?
  }

  datatype Call =
    | RegisterParam(parent: nat, child: Param)
    | HookUpParam(hook: nat)
    | EnableBriefParam(param: nat)
    | SupportNegation(param: nat)

  function After(t: Tree, call: Call): Tree
    requires CallOk(t, call)
  {
    match call
    case RegisterParam(p, child) => Register(t, p, child)
    case HookUpParam(o) => HookUp(t, o)
    case EnableBriefParam(p) => EnableBrief(t, p)
    case SupportNegation(p) => if Negated(t, p) then t else Negate(t, p)
  }

  /** No more than nine commands of a list share an abbreviation, and it fits an option array. */
  ghost predicate RoomFor(t: Tree, opts: seq<nat>) {
    && |opts| <= MAX_OPTION_SIZE && (forall o | o in opts :: Has(t, o))
    && forall token: string :: token != "" ==> |Abbreviated(t, opts, token)| < POSSIBILITY_ARRAY_SIZE
  }

  /** What the calls are made with: parents that are in the tree, room in their option arrays, and
      for a negation a parameter of the config branch with its capability slots filled. */
  ghost predicate CallOk(t: Tree, call: Call) {
    match call
    case RegisterParam(p, child) =>
      && Proper(t, p) && !child.kind.NoCmd?
      && RoomFor(Register(t, p, child), Slots(t, p) + [|t.params|])
      && (!child.feeds.Plain? ==> child.hasCallback && (p == ROOT || Branch(t, p) != t.repeatHook))
    case HookUpParam(o) =>
      && Has(t, t.doHook) && Proper(t, o) && o != ROOT && o != t.config && o != t.repeatHook
      && t.params[o].parent == ROOT
      && RoomFor(t, t.params[t.doHook].options + [o])
    case EnableBriefParam(p) =>
      Proper(t, p) && t.params[p].hasCallback && RoomFor(t, Slots(t, p) + [t.brief])
    case SupportNegation(p) =>
      && Proper(t, p) && p != ROOT && Branch(t, p) == t.config && t.params[p].options != []
      && (forall o | o in t.params[p].options :: Has(t, o))
      && (!Negated(t, p) ==>
            && RoomFor(Negate(t, p), t.params[p].options + [|t.params|])
            && RoomFor(Negate(t, p), [t.suboptions, t.suboptions, t.expansion] + Offered(t, p)))
  }

  /** The option arrays are filled from the front, and the mode is only ever in its own slot. */
  ghost predicate Slotted(t: Tree) {
    && Has(t, t.doHook) && t.params[t.doHook].options != []
    && forall p: nat | p < |t.params| && t.params[p].options != [] ::
         |t.params[p].options| >= SLOTS && t.mode !in t.params[p].options[SLOTS..]
  }

  // ---- what a call does not touch

  /** `t'` has all of `t`, but for options that were added. */
  ghost predicate Grows(t: Tree, t': Tree) {
    && t' == t.(params := t'.params) && |t.params| <= |t'.params|
    && forall q: nat | q < |t.params| :: t'.params[q] == t.params[q].(options := t'.params[q].options)
  }

  lemma GrowsSame(t: Tree, t': Tree, q: nat)
    requires Grows(t, t') && Has(t, q)
    ensures Has(t', q) && t'.params[q] == t.params[q].(options := t'.params[q].options)
    ensures (Special(t', q) <==> Special(t, q)) && (Proper(t', q) <==> Proper(t, q)) && Anchor(t', q) == Anchor(t, q)
  {}

  lemma {:induction false} GrowsBranch(t: Tree, t': Tree, q: nat)
    requires Grows(t, t') && Has(t, q) && q != ROOT
    ensures Has(t', q) && Branch(t', q) == Branch(t, q)
    decreases q
  {
    GrowsSame(t, t', q);
    var up := t.params[q].parent;
    if up < q && up != ROOT {
      GrowsBranch(t, t', up);
    }
  }

  lemma {:induction false} GrowsAbbreviated(t: Tree, t': Tree, opts: seq<nat>, token: string)
    requires Grows(t, t') && forall o | o in opts :: Has(t, o)
    ensures forall o | o in opts :: Has(t', o)
    ensures Abbreviated(t', opts, token) == Abbreviated(t, opts, token)
  {
    if opts != [] {
      assert opts[0] in opts;
      GrowsSame(t, t', opts[0]);
      GrowsAbbreviated(t, t', opts[1..], token);
    }
  }

  lemma GrowsOption(t: Tree, t': Tree, p: nat, o: nat)
    requires Grows(t, t') && Has(t, p) && OptionOk(t, p, o)
    ensures Has(t', p) && OptionOk(t', p, o)
  {
    GrowsSame(t, t', p);
    GrowsSame(t, t', o);
  }

  lemma GrowsRoom(t: Tree, t': Tree, opts: seq<nat>)
    requires Grows(t, t') && RoomFor(t, opts)
    ensures RoomFor(t', opts)
  {
    hide Abbreviated;
    forall o | o in opts ensures Has(t', o) {
      GrowsSame(t, t', o);
    }
    forall token: string | token != "" ensures |Abbreviated(t', opts, token)| < POSSIBILITY_ARRAY_SIZE {
      GrowsAbbreviated(t, t', opts, token);
    }
  }

  /** A parameter of the old tree, with what its options are now. */
  lemma OldParam(t: Tree, t': Tree, q: nat)
    requires Grows(t, t') && TreeOk(t) && Has(t, q)
    requires RoomFor(t', t'.params[q].options) && forall o | o in t'.params[q].options :: OptionOk(t', q, o)
    requires Special(t, q) ==> t'.params[q].options == t.params[q].options
    ensures ParamOk(t', q)
  {
    hide Abbreviated, OptionOk;
    assert ParamOk(t, q);
    GrowsSame(t, t', q);
    if q != ROOT {
      GrowsBranch(t, t', q);
      if !Special(t, q) && q != t.doHook {
        GrowsSame(t, t', t.params[q].parent);
      }
    }
  }

  lemma OldRoom(t: Tree, q: nat)
    requires TreeOk(t) && Has(t, q)
    ensures RoomFor(t, t.params[q].options)
  {
    assert ParamOk(t, q);
  }

  lemma NoRoomNeeded(t: Tree)
    ensures RoomFor(t, [])
  {}

  lemma UntouchedParam(t: Tree, t': Tree, q: nat)
    requires Grows(t, t') && TreeOk(t) && Has(t, q) && t'.params[q].options == t.params[q].options
    ensures ParamOk(t', q)
  {
    hide Abbreviated, OptionOk;
    assert ParamOk(t, q);
    OldRoom(t, q);
    GrowsRoom(t, t', t.params[q].options);
    forall o | o in t'.params[q].options ensures OptionOk(t', q, o) {
      GrowsOption(t, t', q, o);
    }
    OldParam(t, t', q);
  }

  lemma SlotsOk(t: Tree, t': Tree, p: nat, o: nat)
    requires Grows(t, t') && TreeOk(t) && Proper(t, p) && o in Slots(t, p)
    ensures Has(t', p) && OptionOk(t', p, o)
  {
    assert ParamOk(t, p);
    if t.params[p].options == [] {
      assert o == t.mode || o == t.suboptions || o == t.expansion;
      assert OptionOk(t, p, o);
    }
    GrowsOption(t, t', p, o);
  }

  lemma {:induction false} TreeGrows(t: Tree, t': Tree)
    requires Grows(t, t') && TreeOk(t) && forall q: nat | q < |t'.params| :: ParamOk(t', q)
    ensures TreeOk(t')
  {
    hide ParamOk;
    GrowsSame(t, t', ROOT);
    GrowsSame(t, t', t.doHook);
    GrowsSame(t, t', t.config);
  }

  // ---- each call

  lemma RegisterOk(t: Tree, p: nat, child: Param)
    requires TreeOk(t) && CallOk(t, RegisterParam(p, child))
    ensures TreeOk(Register(t, p, child))
  {
    hide Abbreviated, ParamOk, OptionOk, RoomFor;
    var t', n := Register(t, p, child), |t.params|;
    assert Grows(t, t');
    forall o | o in Slots(t, p) + [n] ensures OptionOk(t', p, o) {
      if o != n {
        SlotsOk(t, t', p, o);
      } else {
        NewChild(t, t', p);
      }
    }
    OldParam(t, t', p);
    NoRoomNeeded(t');
    NewParam(t, t', p);
    forall q: nat | q < n && q != p ensures ParamOk(t', q) {
      UntouchedParam(t, t', q);
    }
    TreeGrows(t, t');
  }

  lemma NewChild(t: Tree, t': Tree, p: nat)
    requires Grows(t, t') && TreeOk(t) && Proper(t, p) && |t'.params| == |t.params| + 1
    requires t'.params[|t.params|].parent == p
    ensures OptionOk(t', p, |t.params|)
  {
    GrowsSame(t, t', p);
  }

  lemma NewParam(t: Tree, t': Tree, p: nat)
    requires Grows(t, t') && TreeOk(t) && Proper(t, p) && |t'.params| == |t.params| + 1
    requires var q := t'.params[|t.params|];
             && q.parent == p && RoomFor(t', q.options) && (forall o | o in q.options :: OptionOk(t', |t.params|, o))
             && (!q.feeds.Plain? ==> p == ROOT || Branch(t, p) != t.repeatHook)
    ensures ParamOk(t', |t.params|)
  {
    hide Abbreviated, OptionOk;
    GrowsSame(t, t', p);
    if p != ROOT {
      GrowsBranch(t, t', p);
    }
  }

  lemma HookUpOk(t: Tree, o: nat)
    requires TreeOk(t) && CallOk(t, HookUpParam(o))
    ensures TreeOk(HookUp(t, o))
  {
    hide Abbreviated, ParamOk, RoomFor;
    var t', p := HookUp(t, o), t.doHook;
    assert Grows(t, t');
    assert ParamOk(t, p) && ParamOk(t, o);
    forall x | x in t.params[p].options + [o] ensures OptionOk(t', p, x) {
      if x in t.params[p].options {
        OldOption(t, p, x);
        GrowsOption(t, t', p, x);
      }
    }
    GrowsRoom(t, t', t.params[p].options + [o]);
    OldParam(t, t', p);
    forall q: nat | q < |t.params| && q != p ensures ParamOk(t', q) {
      UntouchedParam(t, t', q);
    }
    TreeGrows(t, t');
  }

  lemma OldOption(t: Tree, p: nat, o: nat)
    requires TreeOk(t) && Has(t, p) && o in t.params[p].options
    ensures OptionOk(t, p, o)
  {
    assert ParamOk(t, p);
  }

  lemma EnableBriefOk(t: Tree, p: nat)
    requires TreeOk(t) && CallOk(t, EnableBriefParam(p))
    ensures TreeOk(EnableBrief(t, p))
  {
    hide Abbreviated, ParamOk, RoomFor;
    var t' := EnableBrief(t, p);
    assert Grows(t, t');
    forall x | x in Slots(t, p) + [t.brief] ensures OptionOk(t', p, x) {
      if x in Slots(t, p) {
        SlotsOk(t, t', p, x);
      }
    }
    GrowsRoom(t, t', Slots(t, p) + [t.brief]);
    OldParam(t, t', p);
    forall q: nat | q < |t.params| && q != p ensures ParamOk(t', q) {
      UntouchedParam(t, t', q);
    }
    TreeGrows(t, t');
  }

  /** What `no` offers: what the parameter it negates does, and no mode. */
  lemma NoOption(t: Tree, t': Tree, p: nat, o: nat)
    requires Grows(t, t') && TreeOk(t) && Slotted(t) && Proper(t, p) && p != ROOT && |t'.params| == |t.params| + 1
        && !Negated(t, p)
    requires t'.params[|t.params|].kind.NoCmd? && t'.params[|t.params|].parent == p
    requires o in [t.suboptions, t.suboptions, t.expansion] + Offered(t, p)
    ensures OptionOk(t', |t.params|, o)
  {
    GrowsSame(t, t', p);
    if o in Offered(t, p) {
      assert o in t.params[p].options && o != t.mode;
      OldOption(t, p, o);
    }
    GrowsSame(t, t', o);
  }

  lemma NegateOk(t: Tree, p: nat)
    requires TreeOk(t) && Slotted(t) && CallOk(t, SupportNegation(p)) && !Negated(t, p)
    ensures TreeOk(Negate(t, p))
  {
    hide Abbreviated, ParamOk, OptionOk, RoomFor, Offered, Branch, Slotted;
    var t', n := Negate(t, p), |t.params|;
    assert Grows(t, t');
    forall x | x in t.params[p].options + [n] ensures OptionOk(t', p, x) {
      if x in t.params[p].options {
        OldOption(t, p, x);
        GrowsOption(t, t', p, x);
      } else {
        NewChild(t, t', p);
      }
    }
    OldParam(t, t', p);
    forall o | o in t'.params[n].options ensures OptionOk(t', n, o) {
      NoOption(t, t', p, o);
    }
    NewParam(t, t', p);
    forall q: nat | q < n && q != p ensures ParamOk(t', q) {
      UntouchedParam(t, t', q);
    }
    TreeGrows(t, t');
  }

  lemma CallKeepsTreeOk(t: Tree, call: Call)
    requires TreeOk(t) && Slotted(t) && CallOk(t, call)
    ensures TreeOk(After(t, call))
  {
    hide TreeOk, Register, HookUp, EnableBrief, Negate, RoomFor, Branch, Slotted;
    match call
    case RegisterParam(p, child) => RegisterOk(t, p, child);
    case HookUpParam(o) => HookUpOk(t, o);
    case EnableBriefParam(p) => EnableBriefOk(t, p);
    case SupportNegation(p) =>
      if !Negated(t, p) {
        NegateOk(t, p);
      }
  }

  lemma CallKeepsSlotted(t: Tree, call: Call)
    requires TreeOk(t) && Slotted(t) && CallOk(t, call)
    ensures Slotted(After(t, call))
  {
    hide ParamOk, RoomFor, Branch, Negated;
    var t' := After(t, call);
    match call
    case RegisterParam(p, child) => SlottedNext(t, p, |t.params|);
    case HookUpParam(o) => SlottedNext(t, t.doHook, o);
    case EnableBriefParam(p) => SlottedNext(t, p, t.brief);
    case SupportNegation(p) =>
      if !Negated(t, p) {
        SlottedNext(t, p, |t.params|);
        assert t'.params[|t.params|].options[SLOTS..] == t.params[p].options[SLOTS..];
      }
  }

  /** One more option behind the others. */
  lemma SlottedNext(t: Tree, p: nat, o: nat)
    requires Slotted(t) && Has(t, p) && o != t.mode
    ensures var opts := Slots(t, p) + [o]; |opts| >= SLOTS && t.mode !in opts[SLOTS..]
  {
    assert (Slots(t, p) + [o])[SLOTS..] == Slots(t, p)[SLOTS..] + [o];
  }

  // ---- all calls

  lemma InitialOption(p: nat, o: nat)
    requires p < 8 && o in Initial().params[p].options
    ensures OptionOk(Initial(), p, o)
  {}

  lemma InitialParam(p: nat)
    requires p < 8
    ensures ParamOk(Initial(), p)
  {
    hide Abbreviated, OptionOk;
    var t := Initial();
    forall o | o in t.params[p].options ensures Has(t, o) && OptionOk(t, p, o) {
      InitialOption(p, o);
      assert Has(t, o);
    }
    forall token: string | token != ""
      ensures |Abbreviated(t, t.params[p].options, token)| < POSSIBILITY_ARRAY_SIZE
    {
      FewAbbreviated(t, t.params[p].options, token);
    }
  }

  lemma InitialOk()
    ensures TreeOk(Initial()) && Slotted(Initial())
  {
    hide ParamOk;
    forall p: nat | p < |Initial().params| ensures ParamOk(Initial(), p) {
      InitialParam(p);
    }
  }

  ghost predicate CallsOk(t: Tree, calls: seq<Call>)
    decreases |calls|
  {
    calls == [] || (CallOk(t, calls[0]) && CallsOk(After(t, calls[0]), calls[1..]))
  }

  ghost function Built(t: Tree, calls: seq<Call>): Tree
    requires CallsOk(t, calls)
    decreases |calls|
  {
    if calls == [] then t else Built(After(t, calls[0]), calls[1..])
  }

  /** Whatever is registered, in whatever order: the tree is one the laws apply to. */
  lemma {:induction false} RegistrationBuildsTrees(t: Tree, calls: seq<Call>)
    requires TreeOk(t) && Slotted(t) && CallsOk(t, calls)
    ensures TreeOk(Built(t, calls))
    decreases |calls|
  {
    hide TreeOk, CallOk, After, Slotted;
    if calls != [] {
      CallKeepsTreeOk(t, calls[0]);
      CallKeepsSlotted(t, calls[0]);
      RegistrationBuildsTrees(After(t, calls[0]), calls[1..]);
    }
  }

  lemma EveryBuiltTree(calls: seq<Call>)
    requires CallsOk(Initial(), calls)
    ensures TreeOk(Built(Initial(), calls))
  {
    InitialOk();
    RegistrationBuildsTrees(Initial(), calls);
  }

  // ---- what is there afterwards

  /** `t'` is `t` with the options `opts` at `p`; nothing else about its parameters has changed. */
  ghost predicate OptionsAt(t: Tree, t': Tree, p: nat, opts: seq<nat>) {
    && Has(t, p) && t' == t.(params := t'.params) && |t.params| <= |t'.params|
    && t'.params[p] == t.params[p].(options := opts)
    && forall q: nat | q < |t.params| && q != p :: t'.params[q] == t.params[q]
  }

  /** What a call of registration does: the new parameter is the last option of its parent, which has
      its capability slots filled; `no` offers what comes behind the slots of the parameter it negates. */
  ghost predicate Carried(t: Tree, call: Call, t': Tree) {
    var n := |t.params|;
    match call
    case RegisterParam(p, child) =>
      && Has(t, p)
      && OptionsAt(t, t', p, (if t.params[p].options == [] then [t.mode, t.suboptions, t.expansion]
                              else t.params[p].options) + [n])
      && |t'.params| == n + 1 && t'.params[n].parent == p && t'.params[n].options == []
      && t'.params[n] == child.(parent := p, options := [])
    case HookUpParam(o) =>
      Has(t, t.doHook) && OptionsAt(t, t', t.doHook, t.params[t.doHook].options + [o]) && |t'.params| == n
    case EnableBriefParam(p) =>
      && Has(t, p)
      && OptionsAt(t, t', p, (if t.params[p].options == [] then [t.mode, t.suboptions, t.expansion]
                              else t.params[p].options) + [t.brief])
      && |t'.params| == n
    case SupportNegation(p) =>
      && Has(t, p)
      && if exists o | o in t.params[p].options :: Has(t, o) && t.params[o].kind.NoCmd? then t' == t
         else
           && OptionsAt(t, t', p, t.params[p].options + [n]) && |t'.params| == n + 1
           && t'.params[n].kind.NoCmd? && t'.params[n].name == "no" && t'.params[n].parent == p
           && t'.params[n].hasCallback && |t.params[p].options| >= 3
           && t'.params[n].options == [t.suboptions, t.suboptions, t.expansion] + t.params[p].options[3..]
  }

  lemma CallMeans(t: Tree, call: Call)
    requires TreeOk(t) && Slotted(t) && CallOk(t, call)
    ensures Carried(t, call, After(t, call))
  {
    hide TreeOk, RoomFor, Branch;
  }

  /** Every parameter with a place of its own can be reached: it is an option of its parent. */
  ghost predicate Linked(t: Tree) {
    forall q: nat | q < |t.params| && q != ROOT && q != t.doHook && !Special(t, q) ::
      t.params[q].parent < q && q in t.params[t.params[q].parent].options
  }

  lemma LinkedGrows(t: Tree, t': Tree, p: nat, opts: seq<nat>)
    requires Linked(t) && OptionsAt(t, t', p, opts) && forall o | o in t.params[p].options :: o in opts
    requires |t'.params| <= |t.params| + 1
    requires |t'.params| > |t.params| ==>
               t'.params[|t.params|].parent == p && |t.params| in opts
    ensures Linked(t')
  {
    forall q: nat | q < |t'.params| && q != ROOT && q != t'.doHook && !Special(t', q)
      ensures t'.params[q].parent < q && q in t'.params[t'.params[q].parent].options
    {
      if q < |t.params| {
        var up := t.params[q].parent;
        assert q in t.params[up].options;
      }
    }
  }

  lemma CallKeepsLinked(t: Tree, call: Call, t': Tree)
    requires Linked(t) && Carried(t, call, t')
    ensures Linked(t')
  {
    hide OptionsAt, Linked;
    match call
    case RegisterParam(p, child) => LinkedGrows(t, t', p, Slots(t, p) + [|t.params|]);
    case HookUpParam(o) => LinkedGrows(t, t', t.doHook, t.params[t.doHook].options + [o]);
    case EnableBriefParam(p) => LinkedGrows(t, t', p, Slots(t, p) + [t.brief]);
    case SupportNegation(p) =>
      if t' != t {
        LinkedGrows(t, t', p, t.params[p].options + [|t.params|]);
      }
  }

  /** Whatever is registered, in whatever order: every parameter is an option of its parent. */
  lemma {:induction false} EveryParamIsLinked(t: Tree, calls: seq<Call>)
    requires TreeOk(t) && Slotted(t) && Linked(t) && CallsOk(t, calls)
    ensures Linked(Built(t, calls))
    decreases |calls|
  {
    hide TreeOk, CallOk, After, Slotted, Linked, Carried;
    if calls != [] {
      CallMeans(t, calls[0]);
      CallKeepsLinked(t, calls[0], After(t, calls[0]));
      CallKeepsTreeOk(t, calls[0]);
      CallKeepsSlotted(t, calls[0]);
      EveryParamIsLinked(After(t, calls[0]), calls[1..]);
    }
  }

  lemma EveryBuiltTreeIsLinked(calls: seq<Call>)
    requires CallsOk(Initial(), calls)
    ensures Linked(Built(Initial(), calls))
  {
    InitialOk();
    EveryParamIsLinked(Initial(), calls);
  }

  /** The words of a command: every parameter is a command below the one before, and no sibling shares
      its name. */
  ghost predicate CommandPath(t: Tree, at: nat, ps: seq<nat>)
    requires Has(t, at)
    decreases |ps|
  {
    ps != [] ==>
      && Proper(t, ps[0]) && ps[0] != ROOT && t.params[ps[0]].kind.Cmd? && t.params[ps[0]].parent == at
      && (forall o | o in t.params[at].options && Has(t, o) && t.params[o].name == t.params[ps[0]].name :: o == ps[0])
      && CommandPath(t, ps[0], ps[1..])
  }

  function NamesOf(t: Tree, ps: seq<nat>): (r: seq<string>)
    requires forall p | p in ps :: Has(t, p)
    ensures |r| == |ps|
  {
    seq(|ps|, i requires 0 <= i < |ps| => (assert ps[i] in ps && Has(t, ps[i]); t.params[ps[i]].name))
  }

  /** A command that was registered is found when it is typed in full. */
  lemma RegisteredIsFound(t: Tree, choose: Chooser, q: nat)
    requires TreeOk(t) && Linked(t) && Has(t, q) && Has(t, t.params[q].parent)
        && CommandPath(t, t.params[q].parent, [q])
    ensures var opts := t.params[t.params[q].parent].options;
            && (forall o | o in opts :: Has(t, o))
            && FindMatching(t, choose, opts, t.params[q].name) == Some(q)
            && NamesOption(t, opts, q, t.params[q].name)
  {
    hide TreeOk, FindMatching;
    UseTreeOk(t, t.params[q].parent);
    var opts := t.params[t.params[q].parent].options;
    assert q in opts;
    var i: nat :| i < |opts| && opts[i] == q;
    assert NamesAt(t, opts, i, t.params[q].name);
    NamedIsFound(t, choose, opts, q, t.params[q].name);
  }

  lemma {:induction false} RegisteredPath(t: Tree, choose: Chooser, at: nat, ps: seq<nat>)
    requires TreeOk(t) && Linked(t) && Has(t, at) && CommandPath(t, at, ps)
    ensures (forall p | p in ps :: Has(t, p)) && Names(t, at, ps, NamesOf(t, ps))
    decreases |ps|
  {
    hide TreeOk, FindMatching, NamesOption, Linked;
    if ps != [] {
      RegisteredPath(t, choose, ps[0], ps[1..]);
      assert ps == [ps[0]] + ps[1..] && [ps[0]][1..] == [];
      RegisteredIsFound(t, choose, ps[0]);
      assert NamesOf(t, ps)[1..] == NamesOf(t, ps[1..]);
    }
  }

  /** From registration to the handler: in every tree that registration builds, typing the words of a
      command runs it. */
  lemma RegisteredCommandExecutes(calls: seq<Call>, choose: Chooser, c: Cli, ps: seq<nat>)
    requires CallsOk(Initial(), calls) && ps != []
    requires var t := Built(Initial(), calls);
             && Has(t, c.cursor) && CommandPath(t, c.cursor, ps) && (forall p | p in ps :: Has(t, p))
             && Classify(t, c.cursor, NamesOf(t, ps)).Command?
    ensures var t := Built(Initial(), calls);
            && TreeOk(t) && (forall p | p in ps :: Has(t, p) && p != ROOT)
            && var (r, status) := Parse(t, choose, c, NamesOf(t, ps)); Executes(t, c, ps, NamesOf(t, ps), r, status)
  {
    hide Built, Linked, Executes, CommandPath, CallsOk, TreeOk, Names, Parse, Classify;
    var t := Built(Initial(), calls);
    EveryBuiltTree(calls);
    EveryBuiltTreeIsLinked(calls);
    RegisteredPath(t, choose, c.cursor, ps);
    NamesHas(t, c.cursor, ps, NamesOf(t, ps));
    TypedCommandExecutes(t, choose, c, ps, NamesOf(t, ps));
  }
}
