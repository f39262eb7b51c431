/** A `do` command is the command typed at the root, and a mode it enters is that mode. */
module CliDo {
  import opened CliTree
  import opened CliModel
  import opened CliLaws
  import opened CliModes
  import opened CliNested
  import opened Sequences

  /** The command line at the root, with the values the leaves hold now. */
  function AtRoot(t: Tree, c: Cli): (r: Cli)
    requires TreeOk(t)
    ensures Inv(t, r)
  {
    c.(cursor := ROOT, buf := [], checkpoint := 0)
  }

  /** The first token names the same parameter at the do hook and at the root; if it is the only one,
      that is not a capability parameter, which would act on the do hook or on the root itself. */
  predicate ResolvesAlike(t: Tree, choose: Chooser, q: seq<string>)
    requires TreeOk(t) && q != []
  {
    DoHookOptions(t);
    var f := FindMatching(t, choose, t.params[t.doHook].options, q[0]);
    f == FindMatching(t, choose, t.params[ROOT].options, q[0]) && (|q| == 1 && f.Some? ==> !Special(t, f.value))
  }

  lemma DoHookOptions(t: Tree)
    requires TreeOk(t)
    ensures Has(t, t.doHook) && Has(t, ROOT)
    ensures forall o | o in t.params[t.doHook].options :: Has(t, o)
    ensures forall o | o in t.params[ROOT].options :: Has(t, o)
  {
    assert ParamOk(t, t.doHook) && ParamOk(t, ROOT);
  }

  lemma FirstStep(t: Tree, choose: Chooser, c: Cli, q: seq<string>)
    requires TreeOk(t) && q != [] && ResolvesAlike(t, choose, q)
    ensures var r1 := WalkStep(t, choose, StartTrail(AtDoHook(t, c)), q[0]);
            var r2 := WalkStep(t, choose, StartTrail(AtRoot(t, c)), q[0]);
            && r1.status == r2.status && r1.holders == r2.holders && r1.tlvs == r2.tlvs
            && (r1.status == COMPLETE ==>
                  r1 == r2.(parent := r1.parent) && r1.param != ROOT && (|q| == 1 ==> !Special(t, r1.param)))
  {
    hide FindMatching, LibOk;
    DoHookOptions(t);
    assert ParamOk(t, ROOT);
    var f := FindMatching(t, choose, t.params[ROOT].options, q[0]);
    if f.Some? {
      assert OptionOk(t, ROOT, f.value);
    }
  }

  /** The trails of the two ways of typing: the same, but for the parameter before a single token. */
  lemma DoTrail(t: Tree, choose: Chooser, c: Cli, q: seq<string>)
    requires TreeOk(t) && q != [] && ResolvesAlike(t, choose, q)
    ensures var s1, s2 := Walk(t, choose, StartTrail(AtDoHook(t, c)), q), Walk(t, choose, StartTrail(AtRoot(t, c)), q);
            && s1.status == s2.status && s1.holders == s2.holders && s1.tlvs == s2.tlvs
            && (s1.status == COMPLETE ==>
                  && s1 == s2.(parent := s1.parent)
                  && (s1.parent == s2.parent || !Special(t, s1.param)))
  {
    hide TreeOk, WalkStep, ResolvesAlike;
    DoHookOptions(t);
    FirstStep(t, choose, c, q);
    var r1 := WalkStep(t, choose, StartTrail(AtDoHook(t, c)), q[0]);
    var r2 := WalkStep(t, choose, StartTrail(AtRoot(t, c)), q[0]);
    if r1.status == COMPLETE && |q| > 1 {
      WalkAlike(t, choose, r1, r2, q[1..]);
    }
  }

  lemma DispatchUnder(t: Tree, c1: Cli, c2: Cli, s1: Trail, s2: Trail)
    requires TreeOk(t) && Has(t, s1.param) && Has(t, s1.parent) && Has(t, s2.parent) && s1.param != ROOT
        && s1.status == COMPLETE
    requires s1 == s2.(parent := s1.parent) && (s1.parent == s2.parent || !Special(t, s1.param))
    requires c1.buf == c2.buf == s1.tlvs && c1.holders == c2.holders && c1.checkpoint == c2.checkpoint == 0
    ensures Sent(t, s1) == Sent(t, s2) && (Moves(t, s1) <==> Moves(t, s2))
    ensures var (r1, st1), (r2, st2) := Dispatch(t, c1, s1), Dispatch(t, c2, s2);
            && st1 == st2 && r1.buf == r2.buf && r1.holders == r2.holders && r1.checkpoint == r2.checkpoint
            && (Moves(t, s1) ==> r1.cursor == r2.cursor)
  {
    hide Branch, CodeTlv;
    assert ParamOk(t, s1.param) && ParamOk(t, t.config);
  }

  /** `do q` in the config branch and `q` at the root run the same handler with the same TLVs, command
      code and mode, store the same values, come to the same status, and enter the same mode if any. */
  lemma DoIsTypingAtTheRoot(t: Tree, choose: Chooser, c: Cli, tokens: seq<string>)
    requires TreeOk(t) && Inv(t, c) && Classify(t, c.cursor, tokens).Do? && Covered(t, choose, c, tokens)
    requires Classify(t, ROOT, tokens[1..]).Command? && Covered(t, choose, AtRoot(t, c), tokens[1..])
    requires ResolvesAlike(t, choose, tokens[1..])
    ensures var (r1, st1), (r2, st2) := Parse(t, choose, c, tokens), Parse(t, choose, AtRoot(t, c), tokens[1..]);
            && st1 == st2 && r1.holders == r2.holders && c.log <= r1.log && AtRoot(t, c).log <= r2.log
            && Delivered(c, r1) == Delivered(AtRoot(t, c), r2)
            && (Moves(t, Walk(t, choose, StartTrail(AtRoot(t, c)), tokens[1..])) ==> r1 == r2)
  {
    hide Walk, Dispatch, Sent, PathTlvs, ResolvesAlike;
    var q, c0, h := tokens[1..], AtRoot(t, c), AtDoHook(t, c);
    DoTrail(t, choose, c, q);
    WalkEnds(t, choose, StartTrail(h), q);
    WalkEnds(t, choose, StartTrail(c0), q);
    HookBuild(t, choose, h, q);
    BuildKeepsInv(t, choose, c0, q);
    var s1, s2 := Walk(t, choose, StartTrail(h), q), Walk(t, choose, StartTrail(c0), q);
    if s1.status == COMPLETE {
      var d1, d2 := h.(buf := s1.tlvs, holders := s1.holders), c0.(buf := s2.tlvs, holders := s2.holders);
      DispatchUnder(t, d1, d2, s1, s2);
      DispatchSends(t, d1, s1);
      DispatchSends(t, d2, s2);
    }
  }

  /** A mode entered by `do`, and the modes entered from there, serve as those entered from the root
      do: what is typed in them reaches its handler as if typed behind all the words at the root. */
  lemma DoModesAreTransparent(t: Tree, choose: Chooser, c: Cli, tokens: seq<string>,
          ps: seq<seq<string>>, ms: seq<seq<string>>, q: seq<string>)
    requires TreeOk(t) && Inv(t, c) && Classify(t, c.cursor, tokens).Do? && Covered(t, choose, c, tokens)
    requires ResolvesAlike(t, choose, tokens[1..])
    requires ps != [] && EntersAll(t, choose, AtRoot(t, c), ps, ms) && ms[0] == tokens[1..]
        && BothCommands(t, choose, AtRoot(t, c), ps, ms, q)
    ensures var c1 := Parsed(t, choose, c, tokens);
            && Inv(t, c1) && EntersAll(t, choose, c1, ps[1..], ms[1..])
            && var c2 := AfterAll(t, choose, c1, ps[1..], ms[1..]);
               var r1, r2 := Parsed(t, choose, c2, q), Parsed(t, choose, AtRoot(t, c), Flatten(ps) + q);
               && c2.log <= r1.log && AtRoot(t, c).log <= r2.log && Same(Delivered(c2, r1), Delivered(AtRoot(t, c), r2))
               && (Delivered(c2, r1) == Delivered(AtRoot(t, c), r2)
                  <==> !NegationLost(t, choose, AtRoot(t, c), ps, ms, q))
  {
    hide TreeOk, Walk, Parse, Sent, PathTlvs, ResolvesAlike, TellsMode, NegationLost;
    DoIsTypingAtTheRoot(t, choose, c, tokens);
    ModesAreTransparent(t, choose, AtRoot(t, c), ps, ms, q);
  }
}
