/** What the lines are for: which handler a command line runs and with which TLVs, command code and
    mode, told from the words typed and the tree alone; which lines are not commands; and what a
    line that is in error leaves alone. */
module CliDelivery {
  import opened CliTree
  import opened CliModel
  import opened CliLaws
  import opened CliModes
  import opened Decimals

  // ---- words that name parameters

  /** `token` names the `i`-th of the options `opts`: it is a command's name, and of no other; or it is
      the beginning of one command's name only; or it begins none and the option is the last leaf, for
      which the value is valid. */
  predicate NamesAt(t: Tree, opts: seq<nat>, i: nat, token: string)
    requires (forall o | o in opts :: Has(t, o)) && i < |opts|
  {
    assert opts[i] in opts && Has(t, opts[i]);
    if t.params[opts[i]].kind.Leaf? then
      && (forall o | o in opts :: !Accepts(t, o, token))
      && (forall j | i < j < |opts| :: Has(t, opts[j]) && !t.params[opts[j]].kind.Leaf?)
    else
      || (t.params[opts[i]].name == token && forall o | o in opts :: Named(t, o, token) ==> o == opts[i])
      || (token <= t.params[opts[i]].name
          && forall j | 0 <= j < |opts| && j != i :: Has(t, opts[j]) && !Accepts(t, opts[j], token))
  }

  predicate NamesOption(t: Tree, opts: seq<nat>, p: nat, token: string)
    requires forall o | o in opts :: Has(t, o)
  {
    exists i: nat :: i < |opts| && opts[i] == p && NamesAt(t, opts, i, token)
  }

  lemma {:induction false} NoneAbbreviated(t: Tree, opts: seq<nat>, token: string)
    requires forall j | 0 <= j < |opts| :: Has(t, opts[j]) && !Accepts(t, opts[j], token)
    ensures (forall o | o in opts :: Has(t, o)) && Abbreviated(t, opts, token) == []
  {
    if opts != [] {
      NoneAbbreviated(t, opts[1..], token);
    }
  }

  lemma {:induction false} OnlyAbbreviated(t: Tree, opts: seq<nat>, i: nat, token: string)
    requires (forall o | o in opts :: Has(t, o)) && i < |opts| && Has(t, opts[i]) && Accepts(t, opts[i], token)
    requires forall j | 0 <= j < |opts| && j != i :: Has(t, opts[j]) && !Accepts(t, opts[j], token)
    ensures Abbreviated(t, opts, token) == [opts[i]]
  {
    if i > 0 {
      OnlyAbbreviated(t, opts[1..], i - 1, token);
    } else {
      NoneAbbreviated(t, opts[1..], token);
    }
  }

  lemma {:induction false} TheLastLeaf(t: Tree, opts: seq<nat>, i: nat)
    requires (forall o | o in opts :: Has(t, o)) && i < |opts| && Has(t, opts[i]) && t.params[opts[i]].kind.Leaf?
    requires forall j | i < j < |opts| :: Has(t, opts[j]) && !t.params[opts[j]].kind.Leaf?
    ensures LastLeaf(t, opts) == Some(opts[i])
  {
    if i < |opts| - 1 {
      TheLastLeaf(t, opts[..|opts| - 1], i);
    }
  }

  /** Such a word is taken for that option, whatever the user would choose. */
  lemma NamedIsFound(t: Tree, choose: Chooser, opts: seq<nat>, p: nat, token: string)
    requires (forall o | o in opts :: Has(t, o)) && NamesOption(t, opts, p, token)
    ensures p in opts && FindMatching(t, choose, opts, token) == Some(p)
  {
    var i: nat :| i < |opts| && opts[i] == p && NamesAt(t, opts, i, token);
    assert opts[i] in opts;
    FindMatchingMeans(t, choose, opts, token);
    FirstExactMeans(t, opts, token);
    if t.params[p].kind.Leaf? {
      TheLastLeaf(t, opts, i);
      NoneAbbreviated(t, opts, token);
    } else if !(t.params[p].name == token && forall o | o in opts :: Named(t, o, token) ==> o == p) {
      OnlyAbbreviated(t, opts, i, token);
    }
  }

  /** What the library and the application accept as the value of a leaf. */
  predicate ValidValue(t: Tree, p: nat, value: string)
    requires Has(t, p)
  {
    (t.params[p].leafType == BOOLEAN ==> "true" <= value || "false" <= value) && t.params[p].userOk(value)
  }

  /** The words name the parameters `ps` one below the other, from `at` on. */
  ghost predicate Names(t: Tree, at: nat, ps: seq<nat>, tokens: seq<string>)
    requires TreeOk(t) && Has(t, at)
    decreases |ps|
  {
    && |ps| == |tokens|
    && (ps != [] ==>
          && assert ParamOk(t, at); NamesOption(t, t.params[at].options, ps[0], tokens[0])
          && Has(t, ps[0]) && (t.params[ps[0]].kind.Leaf? ==> ValidValue(t, ps[0], tokens[0]))
          && Names(t, ps[0], ps[1..], tokens[1..]))
  }

  // ---- what they leave in the buffer

  /** A TLV with type, id and value for every leaf, in order. */
  function Values(t: Tree, ps: seq<nat>, tokens: seq<string>): seq<Tlv>
    requires |ps| == |tokens| && forall p | p in ps :: Has(t, p)
  {
    if ps == [] then []
    else
      assert ps[0] in ps && Has(t, ps[0]);
      var rest := Values(t, ps[1..], tokens[1..]);
      if t.params[ps[0]].kind.Leaf? then
        [Tlv(t.params[ps[0]].leafType, t.params[ps[0]].name, tokens[0])] + rest
      else rest
  }

  /** The value holders afterwards. */
  function Stored(t: Tree, h: Holders, ps: seq<nat>, tokens: seq<string>): Holders
    requires |ps| == |tokens| && forall p | p in ps :: Has(t, p)
    decreases |ps|
  {
    if ps == [] then h
    else
      assert ps[0] in ps && Has(t, ps[0]);
      Stored(t, if t.params[ps[0]].kind.Leaf? then h[ps[0] := tokens[0]] else h, ps[1..], tokens[1..])
  }

  predicate Negates(t: Tree, ps: seq<nat>) {
    exists p | p in ps :: Has(t, p) && t.params[p].kind.NoCmd?
  }

  lemma {:induction false} NamesHas(t: Tree, at: nat, ps: seq<nat>, tokens: seq<string>)
    requires TreeOk(t) && Has(t, at) && Names(t, at, ps, tokens)
    ensures |ps| == |tokens| && forall p | p in ps :: Has(t, p) && p != ROOT
    decreases |ps|
  {
    hide NamesOption;
    if ps != [] {
      assert ParamOk(t, at);
      NamesHas(t, ps[0], ps[1..], tokens[1..]);
      FoundIsOption(t, at, ps[0], tokens[0]);
      assert ps == [ps[0]] + ps[1..];
    }
  }

  lemma FoundIsOption(t: Tree, at: nat, p: nat, token: string)
    requires TreeOk(t) && Has(t, at) && (forall o | o in t.params[at].options :: Has(t, o))
    requires NamesOption(t, t.params[at].options, p, token)
    ensures p != ROOT && Has(t, p)
  {
    assert ParamOk(t, at);
    assert p in t.params[at].options && OptionOk(t, at, p);
  }

  /** The walk along words that name parameters. */
  lemma {:induction false} NamedWalk(t: Tree, choose: Chooser, s: Trail, ps: seq<nat>, tokens: seq<string>)
    requires TreeOk(t) && Has(t, s.param) && s.status == COMPLETE && Names(t, s.param, ps, tokens) && ps != []
    ensures |ps| == |tokens| && forall p | p in ps :: Has(t, p)
    ensures Walk(t, choose, s, tokens) ==
            Trail(ps[|ps| - 1], if |ps| == 1 then s.param else ps[|ps| - 2], s.tlvs + Values(t, ps, tokens),
                  Stored(t, s.holders, ps, tokens), s.disabled || Negates(t, ps), COMPLETE)
    decreases |ps|
  {
    hide TreeOk, NamesOption, WalkStep;
    NamesHas(t, s.param, ps, tokens);
    UseTreeOk(t, s.param);
    NamedStep(t, choose, s, ps[0], tokens[0]);
    var s' := WalkStep(t, choose, s, tokens[0]);
    if |ps| == 1 {
      assert ps[1..] == [] && tokens[1..] == [];
      assert s'.tlvs == s.tlvs + Values(t, ps, tokens);
      assert ps[0] in ps;
    } else {
      NamedWalk(t, choose, s', ps[1..], tokens[1..]);
      assert ps == [ps[0]] + ps[1..];
    }
  }

  lemma NamedStep(t: Tree, choose: Chooser, s: Trail, p: nat, token: string)
    requires TreeOk(t) && Has(t, s.param) && s.status == COMPLETE && Has(t, p)
    requires forall o | o in t.params[s.param].options :: Has(t, o)
    requires NamesOption(t, t.params[s.param].options, p, token)
    requires t.params[p].kind.Leaf? ==> ValidValue(t, p, token)
    ensures var leaf, at := t.params[p].kind.Leaf?, s.(param := p, parent := s.param);
            WalkStep(t, choose, s, token) ==
            if leaf then at.(tlvs := s.tlvs + [Tlv(t.params[p].leafType, t.params[p].name, token)],
                             holders := s.holders[p := token])
            else at.(disabled := s.disabled || t.params[p].kind.NoCmd?)
  {
    hide TreeOk, NamesOption, FindMatching;
    NamedIsFound(t, choose, t.params[s.param].options, p, token);
  }

  // ---- what a command line delivers

  /** A TLV with the command code `n`: its value is text that reads as `n`. */
  predicate IsCode(tlv: Tlv, n: int) {
    tlv.leafType == INT && tlv.leafId == "CMDCODE" && IsNumber(tlv.value) && ReadInt(tlv.value) == n
  }

  /** The handler of `p` is called once more, with `tlvs` and behind them the command code. */
  predicate RanWithCode(t: Tree, before: seq<Delivery>, after: seq<Delivery>, p: nat, tlvs: seq<Tlv>, mode: OpMode)
    requires Has(t, p)
  {
    && |after| == |before| + 1 && before <= after
    && var d := after[|before|];
       && d.Handler? && d.param == p && d.mode == mode
       && |d.tlvs| == |tlvs| + 1 && tlvs <= d.tlvs && IsCode(d.tlvs[|tlvs|], t.params[p].cmdCode)
  }

  /** What a command line does that names the parameters `ps`, the state before it being `c`, after it
      `r`: the last one says what is done, and `/`, `?`, `.` and `brief` do it to the one before. */
  ghost predicate Executes(t: Tree, c: Cli, ps: seq<nat>, tokens: seq<string>, r: Cli, status: Status)
    requires TreeOk(t) && Has(t, c.cursor) && ps != [] && |ps| == |tokens|
    requires forall p | p in ps :: Has(t, p) && p != ROOT
  {
    var p := ps[|ps| - 1];
    assert p in ps;
    var q := if |ps| == 1 then c.cursor else ps[|ps| - 2];
    assert |ps| > 1 ==> q in ps;
    var tlvs := c.buf + Values(t, ps, tokens);
    var told := if Negates(t, ps) then CONFIG_DISABLE else CONFIG_ENABLE;
    && r.holders == Stored(t, c.holders, ps, tokens)
    && if !t.params[p].hasCallback || (p == t.brief && !t.params[q].hasCallback) then
         status == INCOMPLETE_COMMAND && r.log == c.log && r.cursor == c.cursor
       else
         && status == COMPLETE
         && if p == t.mode then
              && (q != ROOT && t.params[q].hasCallback ==> RanWithCode(t, c.log, r.log, q, tlvs, told))
              && (q == ROOT || !t.params[q].hasCallback ==> r.log == c.log)
              && r.cursor == if q == ROOT then c.cursor else q
            else if p == t.brief then
              && RanWithCode(t, c.log, r.log, q, tlvs + [Tlv(INVALID, "SHOW_EXTENSIONS", "SHOW_BRIEF")], OPERATIONAL)
              && r.cursor == if q == t.config then t.config else c.cursor
            else if p == t.suboptions then
              && r.log == c.log + (if t.params[q].hasDisplay then [Suggest(q, tlvs + [Tlv(INT, "", "")])] else [])
              && r.cursor == c.cursor
            else if p == t.expansion then r.log == c.log && r.cursor == c.cursor
            else if p == t.config then
              r.log == c.log + [Handler(p, tlvs, told)] && r.cursor == t.config
            else
              && r.cursor == c.cursor
              && var mode := if Branch(t, p) == t.config then told else OPERATIONAL;
                 if Branch(t, p) == t.repeatHook then r.log == c.log + [Handler(p, tlvs, mode)]
                 else RanWithCode(t, c.log, r.log, p, tlvs, mode)
  }

  lemma CodeReads(t: Tree, p: nat)
    requires Has(t, p)
    ensures IsCode(CodeTlv(t, p), t.params[p].cmdCode)
  {
    DecimalReads(t.params[p].cmdCode);
  }

  /** The trail along `ps`. */
  function TrailAlong(t: Tree, c: Cli, ps: seq<nat>, tokens: seq<string>): Trail
    requires ps != [] && |ps| == |tokens| && forall p | p in ps :: Has(t, p)
  {
    Trail(ps[|ps| - 1], if |ps| == 1 then c.cursor else ps[|ps| - 2], c.buf + Values(t, ps, tokens),
          Stored(t, c.holders, ps, tokens), Negates(t, ps), COMPLETE)
  }

  /** The second half of the parser for such a trail. */
  lemma DispatchExecutes(t: Tree, c: Cli, ps: seq<nat>, tokens: seq<string>)
    requires TreeOk(t) && Has(t, c.cursor) && ps != [] && |ps| == |tokens|
    requires forall p | p in ps :: Has(t, p) && p != ROOT
    ensures var s := TrailAlong(t, c, ps, tokens);
            && s.param in ps && Has(t, s.parent)
            && var (r, status) := Dispatch(t, c.(buf := s.tlvs, holders := s.holders), s);
               Executes(t, c, ps, tokens, r, status)
  {
    hide Values, Stored, Negates, Dispatch, TreeOk, Executes;
    var s := TrailAlong(t, c, ps, tokens);
    assert s.param in ps && (|ps| > 1 ==> s.parent in ps);
    if Special(t, s.param) {
      SpecialExecutes(t, c, ps, tokens);
    } else {
      OrdinaryExecutes(t, c, ps, tokens);
    }
  }

  lemma SpecialExecutes(t: Tree, c: Cli, ps: seq<nat>, tokens: seq<string>)
    requires TreeOk(t) && Has(t, c.cursor) && ps != [] && |ps| == |tokens|
    requires (forall p | p in ps :: Has(t, p) && p != ROOT) && ps[|ps| - 1] in ps && Special(t, ps[|ps| - 1])
    requires |ps| > 1 ==> ps[|ps| - 2] in ps
    ensures var s := TrailAlong(t, c, ps, tokens);
            var (r, status) := Dispatch(t, c.(buf := s.tlvs, holders := s.holders), s);
            Executes(t, c, ps, tokens, r, status)
  {
    hide Values, Stored, Negates, CodeTlv, IsCode, TreeOk, Branch;
    CodeReads(t, TrailAlong(t, c, ps, tokens).parent);
    SpecialsDiffer(t);
  }

  lemma OrdinaryExecutes(t: Tree, c: Cli, ps: seq<nat>, tokens: seq<string>)
    requires TreeOk(t) && Has(t, c.cursor) && ps != [] && |ps| == |tokens|
    requires (forall p | p in ps :: Has(t, p) && p != ROOT) && ps[|ps| - 1] in ps && !Special(t, ps[|ps| - 1])
    requires |ps| > 1 ==> ps[|ps| - 2] in ps
    ensures var s := TrailAlong(t, c, ps, tokens);
            var (r, status) := Dispatch(t, c.(buf := s.tlvs, holders := s.holders), s);
            Executes(t, c, ps, tokens, r, status)
  {
    hide Values, Stored, Negates, CodeTlv, IsCode, TreeOk;
    CodeReads(t, ps[|ps| - 1]);
    SpecialsDiffer(t);
  }

  lemma SpecialsDiffer(t: Tree)
    requires TreeOk(t)
    ensures t.mode != t.suboptions && t.mode != t.expansion && t.mode != t.brief && t.suboptions != t.expansion
    ensures t.suboptions != t.brief && t.expansion != t.brief && !Special(t, t.config) && t.config != ROOT
    ensures Has(t, t.config) && t.params[t.config].hasCallback && Branch(t, t.config) == t.config
  {}

  /** A command line whose words name parameters runs the handler it is meant for, with the values typed
      in front of it and in it, its command code, and the mode: told from the words alone. */
  lemma TypedCommandExecutes(t: Tree, choose: Chooser, c: Cli, ps: seq<nat>, tokens: seq<string>)
    requires TreeOk(t) && Has(t, c.cursor) && Classify(t, c.cursor, tokens).Command?
    requires ps != [] && Names(t, c.cursor, ps, tokens)
    ensures |ps| == |tokens| && forall p | p in ps :: Has(t, p) && p != ROOT
    ensures var (r, status) := Parse(t, choose, c, tokens); Executes(t, c, ps, tokens, r, status)
  {
    hide Values, Stored, Negates, Dispatch, Walk, TreeOk, Names, Classify, Executes;
    NamesHas(t, c.cursor, ps, tokens);
    NamedWalk(t, choose, StartTrail(c), ps, tokens);
    WalkEnds(t, choose, StartTrail(c), tokens);
    DispatchExecutes(t, c, ps, tokens);
    var (r, status) := Build(t, choose, c, tokens);
    ExecutesLike(t, c, c, ps, tokens, r, Settle(r), status);
  }

  /** A `do` line executes the command in it from the do hook, with an empty buffer; if that enters no
      mode, the cursor stays where it was. */
  lemma TypedDoExecutes(t: Tree, choose: Chooser, c: Cli, ps: seq<nat>, tokens: seq<string>)
    requires TreeOk(t) && Proper(t, c.cursor) && Classify(t, c.cursor, ["do"] + tokens).Do?
    requires Has(t, t.doHook) && ps != [] && Names(t, t.doHook, ps, tokens)
    ensures |ps| == |tokens| && forall p | p in ps :: Has(t, p) && p != ROOT
    ensures var (r, status) := Parse(t, choose, c, ["do"] + tokens);
            Executes(t, c.(cursor := t.doHook, buf := []), ps, tokens,
                     r.(cursor := if r.cursor == c.cursor then t.doHook else r.cursor), status)
  {
    hide Values, Stored, Negates, Dispatch, Walk, TreeOk, Names, Classify, Executes, Branch, PathTlvs;
    var h, line := AtDoHook(t, c), ["do"] + tokens;
    assert line[1..] == tokens;
    NamesHas(t, t.doHook, ps, tokens);
    NamedWalk(t, choose, StartTrail(h), ps, tokens);
    WalkEnds(t, choose, StartTrail(h), tokens);
    DispatchExecutes(t, h, ps, tokens);
    DoOutcome(t, choose, c, tokens);
    DoLine(t, c.cursor, line);
    var (d, status) := Build(t, choose, h, tokens);
    var r := Parse(t, choose, c, line).0;
    ExecutesLike(t, h, c.(cursor := t.doHook, buf := []), ps, tokens, d,
                 r.(cursor := if r.cursor == c.cursor then t.doHook else r.cursor), status);
  }

  lemma DoLine(t: Tree, cursor: nat, tokens: seq<string>)
    requires TreeOk(t) && Has(t, cursor) && Classify(t, cursor, tokens).Do?
    ensures |tokens| > 1 && cursor != ROOT && Branch(t, cursor) == t.config
  {}

  /** Checkpoints, and what is in the buffer afterwards, are not part of it. */
  lemma ExecutesLike(t: Tree, c: Cli, c': Cli, ps: seq<nat>, tokens: seq<string>, r: Cli, r': Cli, status: Status)
    requires TreeOk(t) && Has(t, c.cursor) && ps != [] && |ps| == |tokens|
    requires (forall p | p in ps :: Has(t, p) && p != ROOT) && Executes(t, c, ps, tokens, r, status)
    requires c' == c.(checkpoint := c'.checkpoint) && r' == r.(buf := r'.buf, checkpoint := r'.checkpoint)
    ensures Executes(t, c', ps, tokens, r', status)
  {
    hide Values, Stored, Negates, TreeOk, RanWithCode, Branch;
  }

  /** The parameter that `Called` names, on which it depends whether further lines are parsed, is the
      one whose handler the trail runs. */
  lemma CalledIsRun(t: Tree, s: Trail, p: nat)
    requires TreeOk(t) && Has(t, s.param) && Has(t, s.parent) && s.param != ROOT && s.status == COMPLETE
    ensures Called(t, s) == Some(p) <==> exists d | d in Sent(t, s) :: d.Handler? && d.param == p
  {
    hide Branch, CodeTlv, TreeOk;
    SpecialsDiffer(t);
    var sent := Sent(t, s);
    assert |sent| <= 1;
    assert sent != [] ==> sent[0] in sent && forall d | d in sent :: d == sent[0];
  }

  // ---- what a line in error leaves alone

  /** Words that name parameters, and then one that is taken for the leaf `p`: no command of the list
      begins with it, and `p` is the last leaf there. */
  ghost predicate ComesToLeaf(t: Tree, at: nat, ps: seq<nat>, tokens: seq<string>, p: nat, value: string)
    requires TreeOk(t) && Has(t, at)
  {
    && Names(t, at, ps, tokens)
    && var last := if ps == [] then at else ps[|ps| - 1];
       && Has(t, last) && Has(t, p) && t.params[p].kind.Leaf?
       && assert ParamOk(t, last); NamesOption(t, t.params[last].options, p, value)
  }

  /** A value that fails the library's check or the application's keeps its handler, and any other, from
      being called, and the rest of the line from being looked at. */
  lemma InvalidValueStops(t: Tree, choose: Chooser, c: Cli, ps: seq<nat>, tokens: seq<string>, p: nat, value: string,
                          rest: seq<string>)
    requires TreeOk(t) && Has(t, c.cursor) && Classify(t, c.cursor, tokens + [value] + rest).Command?
    requires ComesToLeaf(t, c.cursor, ps, tokens, p, value) && !ValidValue(t, p, value)
    ensures |ps| == |tokens| && forall q | q in ps :: Has(t, q)
    ensures var (r, status) := Parse(t, choose, c, tokens + [value] + rest);
            && status == (if t.params[p].leafType == BOOLEAN && !("true" <= value) && !("false" <= value)
                          then INVALID_LEAF else USER_INVALID_LEAF)
            && r.log == c.log && r.cursor == c.cursor && r.holders == Stored(t, c.holders, ps, tokens)
  {
    hide Walk, TreeOk, Classify, NamesOption, FindMatching, Names;
    var s, line := StartTrail(c), tokens + [value] + rest;
    NamesHas(t, c.cursor, ps, tokens);
    var s1 := WalkTo(t, choose, c, ps, tokens);
    UseTreeOk(t, s1.param);
    NamedIsFound(t, choose, t.params[s1.param].options, p, value);
    Stops(t, choose, s, tokens, value, rest);
  }

  /** A word that no option of the list answers to has the same effect. */
  lemma UnknownWordStops(t: Tree, choose: Chooser, c: Cli, ps: seq<nat>, tokens: seq<string>, word: string,
                         rest: seq<string>)
    requires TreeOk(t) && Has(t, c.cursor) && Classify(t, c.cursor, tokens + [word] + rest).Command?
    requires Names(t, c.cursor, ps, tokens)
    requires var last := if ps == [] then c.cursor else ps[|ps| - 1];
             Has(t, last) && forall o | o in t.params[last].options ::
               Has(t, o) && !t.params[o].kind.Leaf? && !(word <= t.params[o].name)
    ensures |ps| == |tokens| && forall q | q in ps :: Has(t, q)
    ensures var (r, status) := Parse(t, choose, c, tokens + [word] + rest);
            && status == CMD_NOT_FOUND
            && r.log == c.log && r.cursor == c.cursor && r.holders == Stored(t, c.holders, ps, tokens)
  {
    hide Walk, TreeOk, Classify, FindMatching, Names;
    NamesHas(t, c.cursor, ps, tokens);
    var s1 := WalkTo(t, choose, c, ps, tokens);
    FindMatchingMeans(t, choose, t.params[s1.param].options, word);
    Stops(t, choose, StartTrail(c), tokens, word, rest);
  }

  lemma WalkTo(t: Tree, choose: Chooser, c: Cli, ps: seq<nat>, tokens: seq<string>) returns (s: Trail)
    requires TreeOk(t) && Has(t, c.cursor) && Names(t, c.cursor, ps, tokens)
    requires |ps| == |tokens| && forall p | p in ps :: Has(t, p)
    ensures s == Walk(t, choose, StartTrail(c), tokens) && s.status == COMPLETE && Has(t, s.param)
    ensures s.param == if ps == [] then c.cursor else ps[|ps| - 1]
    ensures s.holders == Stored(t, c.holders, ps, tokens)
  {
    s := Walk(t, choose, StartTrail(c), tokens);
    if ps != [] {
      NamedWalk(t, choose, StartTrail(c), ps, tokens);
    }
  }

  lemma Stops(t: Tree, choose: Chooser, s: Trail, tokens: seq<string>, word: string, rest: seq<string>)
    requires TreeOk(t) && Has(t, s.param) && Walk(t, choose, s, tokens).status == COMPLETE
    requires WalkStep(t, choose, Walk(t, choose, s, tokens), word).status != COMPLETE
    ensures Walk(t, choose, s, tokens + [word] + rest) == WalkStep(t, choose, Walk(t, choose, s, tokens), word)
  {
    hide TreeOk, WalkStep;
    assert tokens + [word] + rest == tokens + ([word] + rest);
    WalkConcat(t, choose, s, tokens, [word] + rest);
    assert ([word] + rest)[1..] == rest;
  }

  // ---- lines that are not commands

  lemma FirstLetter(word: string, token: string)
    requires word != "" && (token == "" || token[0] != word[0])
    ensures !(word <= token) && (token != "" ==> !(token <= word))
  {}

  /** The words that are not looked up in the tree. */
  lemma Keywords(t: Tree, cursor: nat)
    requires TreeOk(t) && Has(t, cursor)
    ensures Classify(t, cursor, ["cd"]).Top? && Classify(t, cursor, ["cd.."]).Up? && Classify(t, cursor, ["cls"]).Clear?
    ensures forall file, number :: Classify(t, cursor, ["run", "ut", file, number]).RunUt?
    ensures forall file :: Classify(t, cursor, ["config", "load", file]).ConfigLoad?
    ensures forall n, more: seq<string> | 0 < n <= |"repeat"| ::
              Classify(t, cursor, ["repeat"[..n]] + more).Repeat?
    ensures forall more: seq<string> | more != [] && cursor != ROOT ::
              if Branch(t, cursor) == t.config then Classify(t, cursor, ["do"] + more).Do?
              else Classify(t, cursor, ["do"] + more).DoElsewhere?
  {
    assert "repeat"[0] == 'r' && "repeat"[1] == 'e';
    assert "cd"[0] == 'c' && "cd.."[0] == 'c' && "cls"[0] == 'c' && "config"[0] == 'c' && "do"[0] == 'd'
        && "run"[0] == 'r';
    assert "cd"[1] == 'd' && "cd.."[1] == 'd' && "cls"[1] == 'l' && "run"[1] == 'u' && "do"[1] == 'o';
    forall n, more: seq<string> | 0 < n <= |"repeat"|
      ensures Classify(t, cursor, ["repeat"[..n]] + more).Repeat?
    {
      assert "repeat"[..n][0] == 'r';
      assert "repeat"[..n] <= "repeat";
    }
  }

  /** Whatever begins with another letter than those is a command. */
  lemma OtherWordsAreCommands(t: Tree, cursor: nat, tokens: seq<string>)
    requires TreeOk(t) && Has(t, cursor) && tokens != [] && tokens[0] != ""
    requires tokens[0][0] != 'c' && tokens[0][0] != 'd' && tokens[0][0] != 'r'
    ensures Classify(t, cursor, tokens).Command?
  {
    FirstLetter("repeat", tokens[0]);
    FirstLetter("cd", tokens[0]);
    FirstLetter("cd..", tokens[0]);
    FirstLetter("cls", tokens[0]);
    FirstLetter("run", tokens[0]);
    FirstLetter("config", tokens[0]);
    FirstLetter("do", tokens[0]);
  }

  /** `cd` goes to the root, empties the buffer and the leaves on the way, and touches nothing else. */
  lemma CdGoesToTheTop(t: Tree, choose: Chooser, c: Cli)
    requires TreeOk(t) && Proper(t, c.cursor)
    ensures var (r, status) := Parse(t, choose, c, ["cd"]);
            && r.cursor == ROOT && r.buf == [] && r.checkpoint == 0 && r.log == c.log && status == COMPLETE
            && forall p: nat :: Held(r.holders, p) == if LeafAbove(t, p, c.cursor) then "" else Held(c.holders, p)
  {
    hide Classify;
    Keywords(t, c.cursor);
    if c.cursor != ROOT {
      PathCleared(t, c.cursor, c.holders);
    }
  }

  /** `cd..` goes to the parent, drops a leaf's TLV and value, and touches nothing else. */
  lemma CdGoesUp(t: Tree, choose: Chooser, c: Cli)
    requires TreeOk(t) && Inv(t, c) && c.cursor != ROOT
    ensures var (r, status) := Parse(t, choose, c, ["cd.."]);
            && r.cursor == t.params[c.cursor].parent && r.log == c.log && status == COMPLETE
            && r.buf == (if t.params[c.cursor].kind.Leaf? then c.buf[..|c.buf| - 1] else c.buf)
            && r.checkpoint == |r.buf|
            && forall p: nat :: Held(r.holders, p) ==
                                if p == c.cursor && t.params[p].kind.Leaf? then "" else Held(c.holders, p)
  {
    hide Classify;
    Keywords(t, c.cursor);
    GoUpKeepsInv(t, c);
    assert ParamOk(t, c.cursor);
    assert PathTlvs(t, ROOT, c.holders) == [];
  }

  /** A line without words is incomplete; every other that is not looked up in the tree is complete. */
  lemma OnlyCommandsFail(t: Tree, choose: Chooser, c: Cli, tokens: seq<string>)
    requires TreeOk(t) && Has(t, c.cursor)
    requires !Classify(t, c.cursor, tokens).Command? && !Classify(t, c.cursor, tokens).Do?
    ensures Parse(t, choose, c, tokens).1 == if tokens == [] then INCOMPLETE_COMMAND else COMPLETE
    ensures Parse(t, choose, c, tokens).0.log == c.log
  {}

  /** `cls`, and `do` outside the config branch, change nothing. */
  lemma OthersChangeNothing(t: Tree, choose: Chooser, c: Cli, tokens: seq<string>)
    requires TreeOk(t) && Inv(t, c)
    requires tokens == ["cls"]
          || (|tokens| > 1 && tokens[0] == "do" && c.cursor != ROOT && Branch(t, c.cursor) != t.config)
    ensures Parse(t, choose, c, tokens) == (c, COMPLETE)
  {
    hide Classify;
    Keywords(t, c.cursor);
    assert c.buf[..|c.buf|] == c.buf;
    assert |tokens| > 1 ==> tokens == [tokens[0]] + tokens[1..];
  }
}
