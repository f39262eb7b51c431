/** What every line keeps, and what a mode is for. */
module CliLaws {
  import opened CliTree
  import opened CliModel

  // ---- the parameter a token names

  predicate Named(t: Tree, o: nat, token: string)
    requires Has(t, o)
  {
    !t.params[o].kind.Leaf? && t.params[o].name == token
  }

  predicate Accepts(t: Tree, o: nat, token: string)
    requires Has(t, o)
  {
    !t.params[o].kind.Leaf? && IsPrefix(token, t.params[o].name)
  }

  lemma {:induction false} AbbreviatedMeans(t: Tree, opts: seq<nat>, token: string)
    requires forall o | o in opts :: Has(t, o)
    ensures forall o | o in opts :: o in Abbreviated(t, opts, token) <==> Accepts(t, o, token)
  {
    if opts != [] {
      assert opts[0] in opts;
      AbbreviatedMeans(t, opts[1..], token);
    }
  }

  lemma {:induction false} FirstExactMeans(t: Tree, opts: seq<nat>, token: string)
    requires forall o | o in opts :: Has(t, o)
    ensures FirstExact(t, opts, token).Some? <==> exists o | o in opts :: Named(t, o, token)
    ensures FirstExact(t, opts, token).Some? ==> Named(t, FirstExact(t, opts, token).value, token)
  {
    if opts != [] {
      assert opts[0] in opts;
      FirstExactMeans(t, opts[1..], token);
    }
  }

  lemma {:induction false} LastLeafMeans(t: Tree, opts: seq<nat>)
    requires forall o | o in opts :: Has(t, o)
    ensures LastLeaf(t, opts).Some? <==> exists o | o in opts :: t.params[o].kind.Leaf?
  {
    if opts != [] {
      assert opts[|opts| - 1] in opts;
      LastLeafMeans(t, opts[..|opts| - 1]);
      assert opts == opts[..|opts| - 1] + [opts[|opts| - 1]];
    }
  }

  /** A command named in full is found whatever it is a beginning of; failing that one that the
      token abbreviates, the only one or one the user picks from the list of them; a leaf takes what no
      command accepts. */
  lemma FindMatchingMeans(t: Tree, choose: Chooser, opts: seq<nat>, token: string)
    requires forall o | o in opts :: Has(t, o)
    ensures var r := FindMatching(t, choose, opts, token);
            && ((exists o | o in opts :: Named(t, o, token)) ==> r.Some? && Named(t, r.value, token))
            && ((exists o | o in opts :: Accepts(t, o, token)) ==> (r.Some? ==> Accepts(t, r.value, token)))
            && ((forall o | o in opts :: !Accepts(t, o, token)) ==>
                  && (r.Some? <==> exists o | o in opts :: t.params[o].kind.Leaf?)
                  && (r.Some? ==> t.params[r.value].kind.Leaf?))
            && var some := Abbreviated(t, opts, token);
               && (|some| == 1 ==> r == Some(some[0]))
               && ((forall o | o in opts :: !Named(t, o, token)) && |some| > 1 ==>
                     r == if 0 <= choose(some) < |some| then Some(some[choose(some)]) else None)
  {
    AbbreviatedMeans(t, opts, token);
    FirstExactMeans(t, opts, token);
    LastLeafMeans(t, opts);
    var some := Abbreviated(t, opts, token);
    if some != [] {
      assert some[0] in some && some[0] in opts && Accepts(t, some[0], token);
    }
  }

  // ---- one token

  /** The place in the tree the walk stands for: capability parameters and `no` do not count. */
  function Spot(t: Tree, s: Trail): nat
    requires Has(t, s.param) && Has(t, s.parent)
  {
    if Special(t, s.param) then Anchor(t, s.parent) else Anchor(t, s.param)
  }

  ghost predicate PlaceOk(t: Tree, s: Trail) {
    && Has(t, s.param) && Has(t, s.parent) && Has(t, Spot(t, s))
    && (Special(t, s.param) ==> !Special(t, s.parent) && s.param in t.params[s.parent].options)
  }

  /** The TLVs collected are those of the path to the spot reached. */
  ghost predicate TrailOk(t: Tree, s: Trail) {
    PlaceOk(t, s) && s.tlvs == PathTlvs(t, Spot(t, s), s.holders)
  }

  ghost predicate SameUpTo(h: Holders, h': Holders, n: nat) {
    forall q: nat | q <= n :: Held(h, q) == Held(h', q)
  }

  lemma AnchorProper(t: Tree, p: nat)
    requires TreeOk(t) && Has(t, p) && !Special(t, p)
    ensures Proper(t, Anchor(t, p))
  {
    assert ParamOk(t, p);
  }

  lemma Child(t: Tree, p: nat, o: nat)
    requires TreeOk(t) && Has(t, p) && o in t.params[p].options
    ensures OptionOk(t, p, o)
    ensures !Special(t, o) ==> t.params[o].parent < o && Proper(t, t.params[o].parent)
    ensures Special(t, o) ==> t.params[o].kind.Cmd?
  {
    assert ParamOk(t, p) && OptionOk(t, p, o);
    assert ParamOk(t, o);
  }

  lemma StepDown(t: Tree, choose: Chooser, s: Trail, token: string)
    requires TreeOk(t) && TrailOk(t, s) && s.status == COMPLETE && !Special(t, s.param)
    ensures var r := WalkStep(t, choose, s, token);
            && r.parent == s.param && s.tlvs <= r.tlvs
            && SameUpTo(s.holders, r.holders, Spot(t, s))
            && (r.status == COMPLETE ==> TrailOk(t, r) && Spot(t, s) <= Spot(t, r))
            && (r.status == COMPLETE && !Special(t, r.param) && !t.params[r.param].kind.NoCmd? ==>
                  Proper(t, r.param) && t.params[r.param].parent == Spot(t, s) < r.param)
            && (r.status == COMPLETE && (Special(t, r.param) || t.params[r.param].kind.NoCmd?) ==>
                  Spot(t, r) == Spot(t, s) && r.holders == s.holders)
  {
    hide TreeOk, FindMatching, LibOk, SameUpTo;
    var r := WalkStep(t, choose, s, token);
    AnchorProper(t, s.param);
    if r.status == COMPLETE {
      Child(t, s.param, r.param);
      if t.params[r.param].kind.Leaf? {
        Untouched(s.holders, r.param, token, Spot(t, s));
        UntouchedPath(t, s, r);
      } else {
        SameRefl(s.holders, Spot(t, s));
      }
    } else {
      SameRefl(s.holders, Spot(t, s));
    }
  }

  lemma SameRefl(h: Holders, n: nat)
    ensures SameUpTo(h, h, n)
  {}

  lemma Untouched(h: Holders, p: nat, value: string, n: nat)
    requires n < p
    ensures SameUpTo(h, h[p := value], n)
  {}

  lemma UntouchedPath(t: Tree, s: Trail, r: Trail)
    requires Has(t, s.param) && Has(t, s.parent) && Has(t, Spot(t, s)) && SameUpTo(s.holders, r.holders, Spot(t, s))
    ensures PathTlvs(t, Spot(t, s), s.holders) == PathTlvs(t, Spot(t, s), r.holders)
  {
    PathFrame(t, Spot(t, s), s.holders, r.holders);
  }

  /** After a capability parameter no further token is accepted. */
  lemma SpecialEnds(t: Tree, choose: Chooser, s: Trail, token: string)
    requires TreeOk(t) && Has(t, s.param) && Special(t, s.param)
    ensures WalkStep(t, choose, s, token) == s.(parent := s.param, status := CMD_NOT_FOUND)
  {
    assert ParamOk(t, s.param);
  }

  // ---- all tokens

  lemma {:induction false} WalkDown(t: Tree, choose: Chooser, s: Trail, tokens: seq<string>)
    requires TreeOk(t) && TrailOk(t, s) && s.status == COMPLETE
    ensures var r := Walk(t, choose, s, tokens);
            && s.tlvs <= r.tlvs && SameUpTo(s.holders, r.holders, Spot(t, s))
            && (r.status == COMPLETE ==> TrailOk(t, r) && Spot(t, s) <= Spot(t, r))
    decreases |tokens|
  {
    if tokens != [] {
      var s' := WalkStep(t, choose, s, tokens[0]);
      if Special(t, s.param) {
        SpecialEnds(t, choose, s, tokens[0]);
      } else {
        StepDown(t, choose, s, tokens[0]);
        if s'.status == COMPLETE {
          WalkDown(t, choose, s', tokens[1..]);
        }
      }
    }
  }

  lemma {:induction false} WalkConcat(t: Tree, choose: Chooser, s: Trail, p: seq<string>, q: seq<string>)
    requires TreeOk(t) && Has(t, s.param)
    ensures Walk(t, choose, s, p + q) == Walk(t, choose, Walk(t, choose, s, p), q)
    decreases |p|
  {
    if p == [] {
      assert p + q == q;
    } else if s.status == COMPLETE {
      assert (p + q)[0] == p[0] && (p + q)[1..] == p[1..] + q;
      WalkConcat(t, choose, WalkStep(t, choose, s, p[0]), p[1..], q);
    }
  }

  // ---- the state between lines

  /** The buffer is exactly the leaf TLVs on the path from the root to the cursor, and all of it
      is behind the checkpoint; at the root it is empty. */
  ghost predicate Inv(t: Tree, c: Cli) {
    && Proper(t, c.cursor)
    && c.buf == PathTlvs(t, c.cursor, c.holders)
    && c.checkpoint == |c.buf|
  }

  lemma StartOk(t: Tree, c: Cli)
    requires TreeOk(t) && Inv(t, c)
    ensures TrailOk(t, StartTrail(c)) && Spot(t, StartTrail(c)) == c.cursor
  {}

  /** The trails that run the handler of `config` with its command code, or more, already in the
      buffer: `/` or the `brief` extension right behind `config`. */
  predicate RemarksConfig(t: Tree, s: Trail) {
    s.status == COMPLETE && (s.param == t.mode || s.param == t.brief) && s.parent == t.config
  }

  /** What dispatching does to the command line: it enters the mode of the parameter before `/`,
      it runs the handler of `config`, or it leaves cursor and checkpoint where they are. */
  lemma DispatchCases(t: Tree, c: Cli, s: Trail)
    requires TreeOk(t) && PlaceOk(t, s) && s.param != ROOT && s.status == COMPLETE
    requires c.buf == s.tlvs && c.holders == s.holders && c.checkpoint <= |c.buf|
    ensures var r := Dispatch(t, c, s).0;
            && c.buf <= r.buf && r.holders == c.holders
            && if RemarksConfig(t, s) then r.cursor == t.config && c.buf < r.buf && r.checkpoint == |r.buf|
               else if s.param == t.mode then
                 r.checkpoint == |c.buf| && r.cursor == if s.parent == ROOT then c.cursor else s.parent
               else if s.param == t.config then r.cursor == t.config && r.checkpoint == |c.buf| && r.buf == c.buf
               else r.cursor == c.cursor && r.checkpoint == c.checkpoint
  {
    assert ParamOk(t, s.param);
    assert ParamOk(t, s.parent);
  }

  /** Going back to the checkpoint leaves a state with the same path as it was. */
  lemma SettleSame(t: Tree, c: Cli, r: Cli)
    requires TreeOk(t) && Inv(t, c) && r.cursor == c.cursor && r.checkpoint == c.checkpoint && c.buf <= r.buf
    requires SameUpTo(c.holders, r.holders, c.cursor)
    ensures Inv(t, Settle(r)) && Settle(r).buf == c.buf
  {
    PathFrame(t, c.cursor, c.holders, r.holders);
  }

  lemma BuildKeepsInv(t: Tree, choose: Chooser, c: Cli, tokens: seq<string>)
    requires TreeOk(t) && Inv(t, c) && tokens != [] && !Feeds(t, Walk(t, choose, StartTrail(c), tokens))
    ensures Inv(t, Settle(Build(t, choose, c, tokens).0)) <==> !RemarksConfig(t, Walk(t, choose, StartTrail(c), tokens))
  {
    var s, r := Walk(t, choose, StartTrail(c), tokens), Build(t, choose, c, tokens).0;
    StartOk(t, c);
    WalkEnds(t, choose, StartTrail(c), tokens);
    WalkDown(t, choose, StartTrail(c), tokens);
    if s.status == COMPLETE {
      DispatchCases(t, c.(buf := s.tlvs, holders := s.holders), s);
      assert ParamOk(t, s.parent);
      if s.param == t.mode {
        assert OptionOk(t, s.parent, t.mode);
        if s.parent == ROOT {
          SettleSame(t, c, r.(checkpoint := c.checkpoint));
        }
      } else if !RemarksConfig(t, s) && s.param != t.config {
        SettleSame(t, c, r);
      }
    } else {
      SettleSame(t, c, r);
    }
  }

  // ---- cd and cd..

  lemma GoUpKeepsInv(t: Tree, c: Cli)
    requires TreeOk(t) && Inv(t, c)
    ensures Inv(t, GoUp(t, c)) && Settle(GoUp(t, c)) == GoUp(t, c) && GoUp(t, c).log == c.log
    ensures c.cursor != ROOT ==> GoUp(t, c).cursor == t.params[c.cursor].parent < c.cursor
    ensures c.cursor == ROOT ==> GoUp(t, c) == c
    ensures forall p: nat :: Held(GoUp(t, c).holders, p) ==
                             if p == c.cursor != ROOT && t.params[p].kind.Leaf? then "" else Held(c.holders, p)
  {
    assert ParamOk(t, c.cursor);
    if c.cursor != ROOT {
      PathFrame(t, t.params[c.cursor].parent, c.holders, GoUp(t, c).holders);
    }
  }

  lemma GoTopKeepsInv(t: Tree, c: Cli)
    requires TreeOk(t) && Inv(t, c)
    ensures Inv(t, GoTop(t, c)) && Settle(GoTop(t, c)) == GoTop(t, c)
    ensures GoTop(t, c).cursor == ROOT && GoTop(t, c).buf == [] && GoTop(t, c).checkpoint == 0
        && GoTop(t, c).log == c.log
    ensures forall p: nat :: Held(GoTop(t, c).holders, p) ==
                             if LeafAbove(t, p, c.cursor) then "" else Held(c.holders, p)
  {
    if c.cursor != ROOT {
      PathCleared(t, c.cursor, c.holders);
    }
  }

  /** `p` is a leaf on the path from the root down to `q`. */
  predicate LeafAbove(t: Tree, p: nat, q: nat)
    requires Has(t, q)
  {
    p != ROOT && Has(t, p) && t.params[p].kind.Leaf? && Above(t, p, q)
  }

  lemma {:induction false} PathCleared(t: Tree, q: nat, h: Holders)
    requires TreeOk(t) && Proper(t, q)
    ensures forall p: nat :: Held(ClearPath(t, q, h), p) == if LeafAbove(t, p, q) then "" else Held(h, p)
    decreases q
  {
    if q != ROOT {
      assert ParamOk(t, q);
      PathCleared(t, t.params[q].parent, if t.params[q].kind.Leaf? then h[q := ""] else h);
    }
  }

  // ---- do

  function Base(t: Tree, s: Trail): nat {
    if Special(t, s.param) then s.parent else s.param
  }

  /** A walk from the do hook never comes into the branch of `config`. */
  ghost predicate OffConfig(t: Tree, s: Trail)
    requires TrailOk(t, s)
  {
    if Spot(t, s) == ROOT then Base(t, s) == t.doHook else Branch(t, Spot(t, s)) != t.config
  }

  ghost predicate SameInConfig(t: Tree, h: Holders, h': Holders) {
    forall q: nat | Proper(t, q) && q != ROOT && Branch(t, q) == t.config :: Held(h, q) == Held(h', q)
  }

  lemma OffConfigStep(t: Tree, choose: Chooser, s: Trail, token: string)
    requires TreeOk(t) && TrailOk(t, s) && s.status == COMPLETE && !Special(t, s.param) && OffConfig(t, s)
    ensures var r := WalkStep(t, choose, s, token);
            && SameInConfig(t, s.holders, r.holders)
            && (r.status == COMPLETE ==> TrailOk(t, r) && OffConfig(t, r))
  {
    hide TreeOk, FindMatching, LibOk, SameUpTo, PathTlvs;
    var r := WalkStep(t, choose, s, token);
    AnchorProper(t, s.param);
    StepDown(t, choose, s, token);
    if r.status == COMPLETE {
      Child(t, s.param, r.param);
    }
  }

  lemma {:induction false} OffConfigWalk(t: Tree, choose: Chooser, s: Trail, tokens: seq<string>)
    requires TreeOk(t) && TrailOk(t, s) && s.status == COMPLETE && OffConfig(t, s)
    ensures var r := Walk(t, choose, s, tokens);
            && SameInConfig(t, s.holders, r.holders)
            && (r.status == COMPLETE ==> TrailOk(t, r) && OffConfig(t, r))
    decreases |tokens|
  {
    hide TreeOk, WalkStep, Spot;
    if tokens != [] {
      var s' := WalkStep(t, choose, s, tokens[0]);
      if Special(t, s.param) {
        SpecialEnds(t, choose, s, tokens[0]);
      } else {
        OffConfigStep(t, choose, s, tokens[0]);
        if s'.status == COMPLETE {
          OffConfigWalk(t, choose, s', tokens[1..]);
        }
      }
    }
  }

  /** Where a `do` command can leave the command line before it is put back together: at the do
      hook, with the leaves of the config branch untouched, or in a mode of another branch. */
  lemma DoOutcome(t: Tree, choose: Chooser, c: Cli, tokens: seq<string>)
    requires TreeOk(t) && Proper(t, c.cursor) && tokens != []
    ensures var r := Build(t, choose, AtDoHook(t, c), tokens).0;
            && SameInConfig(t, c.holders, r.holders)
            && (r.cursor != t.doHook ==> Inv(t, Settle(r)) && r.cursor != ROOT && Branch(t, r.cursor) != t.config)
  {
    var c0 := AtDoHook(t, c);
    var s, r := Walk(t, choose, StartTrail(c0), tokens), Build(t, choose, c0, tokens).0;
    OffConfigWalk(t, choose, StartTrail(c0), tokens);
    WalkEnds(t, choose, StartTrail(c0), tokens);
    if s.status == COMPLETE {
      DispatchCases(t, c0.(buf := s.tlvs, holders := s.holders), s);
      assert ParamOk(t, s.parent);
      if s.param == t.mode {
        assert OptionOk(t, s.parent, t.mode);
      }
    }
  }

  /** The `assert(0)` behind a `do` that entered a mode cannot be reached: that mode is never one of
      the config branch.  A `do` that entered none is transparent: walking up from the cursor and
      collecting the value holders gives back the very TLVs that were discarded before it. */
  lemma DoIsTransparent(t: Tree, choose: Chooser, c: Cli, tokens: seq<string>)
    requires TreeOk(t) && Inv(t, c) && Classify(t, c.cursor, tokens).Do? && Covered(t, choose, c, tokens)
    ensures var r := Build(t, choose, AtDoHook(t, c), tokens[1..]).0;
            var end := Parse(t, choose, c, tokens).0;
            && Inv(t, end)
            && (r.cursor != t.doHook ==>
                  end.cursor == r.cursor && end.cursor != ROOT && Branch(t, end.cursor) != t.config)
            && (r.cursor == t.doHook ==> end.cursor == c.cursor && end.buf == c.buf && end.checkpoint == c.checkpoint)
  {
    DoOutcome(t, choose, c, tokens[1..]);
    var r := Build(t, choose, AtDoHook(t, c), tokens[1..]).0;
    if r.cursor == t.doHook {
      PathFrameBranch(t, c.cursor, c.holders, r.holders);
    }
  }

  // ---- every line

  /** Exactly which lines keep the invariant: all but those that run the handler of `config`
      behind its command code. */
  lemma EveryLineKeepsInv(t: Tree, choose: Chooser, c: Cli, tokens: seq<string>)
    requires TreeOk(t) && Inv(t, c) && Covered(t, choose, c, tokens)
    ensures Inv(t, Parse(t, choose, c, tokens).0) <==>
            !(Classify(t, c.cursor, tokens).Command? && RemarksConfig(t, Walk(t, choose, StartTrail(c), tokens)))
  {
    match Classify(t, c.cursor, tokens)
    case Do => DoIsTransparent(t, choose, c, tokens);
    case Up => GoUpKeepsInv(t, c);
    case Top => GoTopKeepsInv(t, c);
    case Command => BuildKeepsInv(t, choose, c, tokens);
    case _ => SettleSame(t, c, c);
  }

  function Run(t: Tree, c: Cli, lines: seq<Typed>): Option<Cli>
    requires TreeOk(t) && Has(t, c.cursor)
    decreases |lines|
  {
    if lines == [] then Some(c)
    else
      var r := Parse(t, lines[0].choose, c, lines[0].tokens).0;
      if !Has(t, r.cursor) then None else Run(t, r, lines[1..])
  }

  /** No line of the run is one of those that break the invariant. */
  ghost predicate Regular(t: Tree, c: Cli, lines: seq<Typed>)
    requires TreeOk(t) && Has(t, c.cursor)
    decreases |lines|
  {
    lines == [] ||
    var choose, tokens := lines[0].choose, lines[0].tokens;
    && Covered(t, choose, c, tokens)
    && !(Classify(t, c.cursor, tokens).Command? && RemarksConfig(t, Walk(t, choose, StartTrail(c), tokens)))
    && var r := Parse(t, choose, c, tokens).0; (Has(t, r.cursor) ==> Regular(t, r, lines[1..]))
  }

  /** After every run, whatever succeeded or failed in it, the buffer is the path. */
  lemma {:induction false} RunsKeepInv(t: Tree, c: Cli, lines: seq<Typed>)
    requires TreeOk(t) && Inv(t, c) && Regular(t, c, lines)
    ensures Run(t, c, lines).Some? && Inv(t, Run(t, c, lines).value)
    decreases |lines|
  {
    if lines != [] {
      EveryLineKeepsInv(t, lines[0].choose, c, lines[0].tokens);
      RunsKeepInv(t, Parse(t, lines[0].choose, c, lines[0].tokens).0, lines[1..]);
    }
  }
}
