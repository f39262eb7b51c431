/** The command tree, fixed once the application has registered its commands.

    Parameters are numbered so that a parameter comes after its parent; number 0 is the root. */
module CliTree {

  datatype Option<+T> = None | Some(value: T)

  datatype Kind = Cmd | Leaf | NoCmd

  datatype LeafType = INT | STRING | IPV4 | FLOAT | IPV6 | BOOLEAN | INVALID

  /** Whether a handler reads further lines and has them parsed: from a menu, as that of
      `show history` does, or from a unit test script, which must come to a good end. */
  datatype Feeder = Plain | Menu | Script

  /** `name` is a command's name or a leaf's id.  `options` is the option array up to its first
      empty entry: the capability parameters first, then the children.  `feeds` is what the
      handler does. */
  datatype Param = Param(kind: Kind, name: string, leafType: LeafType, parent: nat, options: seq<nat>,
                         hasCallback: bool, hasDisplay: bool, feeds: Feeder, cmdCode: int, userOk: string -> bool)

  /** The parameters with a role of their own in the parser. */
  datatype Tree = Tree(params: seq<Param>, doHook: nat, config: nat, repeatHook: nat,
                       mode: nat, suboptions: nat, expansion: nat, brief: nat)

  const ROOT: nat := 0
  const MAX_OPTION_SIZE: nat := 16
  const POSSIBILITY_ARRAY_SIZE: nat := 10

  predicate Has(t: Tree, p: nat) {
    p < |t.params|
  }

  /** The capability parameters, shared by many option arrays. */
  predicate Special(t: Tree, p: nat) {
    p == t.mode || p == t.suboptions || p == t.expansion || p == t.brief
  }

  /** A parameter that a mode can be entered at: it has a place of its own in the tree. */
  predicate Proper(t: Tree, p: nat) {
    Has(t, p) && !Special(t, p) && p != t.doHook && !t.params[p].kind.NoCmd?
  }

  /** The parameter whose children are reached through `p`: `no` stands for the command it
      negates, the do hook for the root. */
  function Anchor(t: Tree, p: nat): nat
    requires Has(t, p)
  {
    if t.params[p].kind.NoCmd? then t.params[p].parent else if p == t.doHook then ROOT else p
  }

  predicate IsPrefix(a: string, b: string) {
    a <= b
  }

  /** Commands among `opts` that `token` abbreviates, in order. */
  function Abbreviated(t: Tree, opts: seq<nat>, token: string): (r: seq<nat>)
    requires forall o | o in opts :: Has(t, o)
    ensures forall o | o in r :: o in opts
  {
    if opts == [] then []
    else
      assert opts[0] in opts && Has(t, opts[0]);
      var rest := Abbreviated(t, opts[1..], token);
      if !t.params[opts[0]].kind.Leaf? && IsPrefix(token, t.params[opts[0]].name) then [opts[0]] + rest else rest
  }

  lemma {:induction false} FewAbbreviated(t: Tree, opts: seq<nat>, token: string)
    requires forall o | o in opts :: Has(t, o)
    ensures |Abbreviated(t, opts, token)| <= |opts|
  {
    if opts != [] {
      assert opts[0] in opts;
      FewAbbreviated(t, opts[1..], token);
    }
  }

  ghost predicate OptionOk(t: Tree, p: nat, o: nat)
    requires Has(t, p)
  {
    && Has(t, o) && o != ROOT
    && (!Special(t, o) ==>
          && o != t.doHook && t.params[o].parent == Anchor(t, p)
          && (t.params[o].kind.NoCmd? ==> Proper(t, p)))
    && (o == t.mode ==> Proper(t, p))
    && (o == t.config ==> p == ROOT)
  }

  ghost predicate ParamOk(t: Tree, p: nat)
    requires Has(t, p)
  {
    && |t.params[p].options| <= MAX_OPTION_SIZE
    && (forall o | o in t.params[p].options :: OptionOk(t, p, o))
    && (Special(t, p) ==> t.params[p].kind.Cmd? && t.params[p].options == [] && t.params[p].hasCallback)
    && (!t.params[p].feeds.Plain? ==> p != ROOT && !Special(t, p) && p != t.config && Branch(t, p) != t.repeatHook)
    && (p != ROOT && !Special(t, p) && p != t.doHook ==> t.params[p].parent < p && Proper(t, t.params[p].parent))
    && (forall token: string :: token != "" ==> |Abbreviated(t, t.params[p].options, token)| < POSSIBILITY_ARRAY_SIZE)
  }

  /** What the registration calls build, and what the parser's assertions demand of it: at most
      nine commands under one parameter may share an abbreviation. */
  ghost predicate TreeOk(t: Tree) {
    && |t.params| > 0 && t.params[ROOT].kind.Cmd?
    && Has(t, t.doHook) && Has(t, t.config) && Has(t, t.repeatHook) && Has(t, t.mode) && Has(t, t.suboptions)
       && Has(t, t.expansion) && Has(t, t.brief)
    && !Special(t, ROOT) && t.doHook != ROOT && !Special(t, t.doHook) && t.params[t.doHook].kind.Cmd?
    && t.mode != t.suboptions && t.mode != t.expansion && t.mode != t.brief && t.suboptions != t.expansion
    && t.suboptions != t.brief && t.expansion != t.brief
    && t.config != ROOT && Proper(t, t.config) && t.params[t.config].kind.Cmd? && t.params[t.config].parent == ROOT
       && t.params[t.config].hasCallback
    && (forall p: nat | p < |t.params| :: ParamOk(t, p))
  }

  lemma UseTreeOk(t: Tree, p: nat)
    requires TreeOk(t) && Has(t, p)
    ensures ParamOk(t, p)
  {}

  // ---- the path to a parameter

  /** `get_current_branch_hook`: the ancestor right below the root. */
  function Branch(t: Tree, p: nat): (r: nat)
    requires Has(t, p) && p != ROOT
    decreases p
  {
    var q := t.params[p].parent;
    if q < p && q != ROOT && Has(t, q) then Branch(t, q) else p
  }

  /** `a` is `p` or above it. */
  predicate Above(t: Tree, a: nat, p: nat)
    requires Has(t, p)
    decreases p
  {
    a == p || (p != ROOT && t.params[p].parent < p && Above(t, a, t.params[p].parent))
  }

  lemma {:induction false} BranchIsBelowRoot(t: Tree, p: nat)
    requires TreeOk(t) && Has(t, p) && p != ROOT && p != t.doHook && !Special(t, p)
    ensures var b := Branch(t, p); Has(t, b) && b != ROOT && Above(t, b, p) && t.params[b].parent == ROOT
    decreases p
  {
    assert ParamOk(t, p);
    if t.params[p].parent != ROOT {
      BranchIsBelowRoot(t, t.params[p].parent);
    }
  }

  type Holders = map<nat, string>

  /** A leaf's value holder; it starts out empty. */
  function Held(h: Holders, p: nat): string {
    if p in h then h[p] else ""
  }

  datatype Tlv = Tlv(leafType: LeafType, leafId: string, value: string)

  function LeafTlv(t: Tree, p: nat, value: string): Tlv
    requires Has(t, p)
  {
    Tlv(t.params[p].leafType, t.params[p].name, value)
  }

  /** The values of the leaves on the path from the root down to `p`. */
  function PathTlvs(t: Tree, p: nat, h: Holders): seq<Tlv>
    requires Has(t, p)
    decreases p
  {
    if p == ROOT then []
    else
      var q := t.params[p].parent;
      var above := if q < p then PathTlvs(t, q, h) else [];
      if t.params[p].kind.Leaf? then above + [LeafTlv(t, p, Held(h, p))] else above
  }

  /** Only the holders on the path matter, and they have smaller numbers. */
  lemma {:induction false} PathFrame(t: Tree, p: nat, h: Holders, h': Holders)
    requires Has(t, p) && forall q: nat | q <= p :: Held(h, q) == Held(h', q)
    ensures PathTlvs(t, p, h) == PathTlvs(t, p, h')
    decreases p
  {
    if p != ROOT && t.params[p].parent < p {
      PathFrame(t, t.params[p].parent, h, h');
    }
  }

  /** The same when the changes are in another branch. */
  lemma {:induction false} PathFrameBranch(t: Tree, p: nat, h: Holders, h': Holders)
    requires TreeOk(t) && Proper(t, p) && p != ROOT
    requires forall q: nat | Proper(t, q) && q != ROOT && Branch(t, q) == Branch(t, p) :: Held(h, q) == Held(h', q)
    ensures PathTlvs(t, p, h) == PathTlvs(t, p, h')
    decreases p
  {
    assert ParamOk(t, p);
    var q := t.params[p].parent;
    if q != ROOT {
      assert Branch(t, q) == Branch(t, p);
      PathFrameBranch(t, q, h, h');
    }
  }
}
