/** What a mode is for: typing the rest of a command in it is the same as typing the whole command,
    and `cd..` takes it back. */
module CliModes {
  import opened CliTree
  import opened CliModel
  import opened CliLaws
  import opened Sequences

  // ---- a walk that starts in the middle

  /** The two trails differ at most in what was there before and in whether `no` was seen. */
  predicate Alike(s1: Trail, s2: Trail) {
    s1 == s2.(parent := s1.parent, disabled := s1.disabled) && (s1.disabled ==> s2.disabled)
  }

  lemma StepAlike(t: Tree, choose: Chooser, s1: Trail, s2: Trail, token: string)
    requires TreeOk(t) && Has(t, s1.param) && Alike(s1, s2)
    ensures var r1, r2 := WalkStep(t, choose, s1, token), WalkStep(t, choose, s2, token);
            Alike(r1, r2) && r1.parent == r2.parent && (s1.disabled == s2.disabled ==> r1 == r2)
  {
    hide TreeOk, FindMatching, LibOk;
  }

  lemma {:induction false} WalkAlike(t: Tree, choose: Chooser, s1: Trail, s2: Trail, tokens: seq<string>)
    requires TreeOk(t) && Has(t, s1.param) && Alike(s1, s2) && (tokens == [] ==> s1.parent == s2.parent)
    requires s1.status == COMPLETE
    ensures var r1, r2 := Walk(t, choose, s1, tokens), Walk(t, choose, s2, tokens);
            Alike(r1, r2) && r1.parent == r2.parent && (s1.disabled == s2.disabled ==> r1 == r2)
    decreases |tokens|
  {
    hide TreeOk, WalkStep;
    if tokens != [] {
      var n1, n2 := WalkStep(t, choose, s1, tokens[0]), WalkStep(t, choose, s2, tokens[0]);
      StepAlike(t, choose, s1, s2, tokens[0]);
      if n1.status == COMPLETE {
        WalkAlike(t, choose, n1, n2, tokens[1..]);
      }
    }
  }

  // ---- entering a mode

  /** The line `m` enters a mode for what `p` names: it is `p` followed by `/`, or it is `config`. */
  ghost predicate Enters(t: Tree, choose: Chooser, c: Cli, p: seq<string>, m: seq<string>)
    requires TreeOk(t) && Has(t, c.cursor)
  {
    && Classify(t, c.cursor, m).Command?
    && var s := Walk(t, choose, StartTrail(c), m);
       && s.status == COMPLETE && !RemarksConfig(t, s) && !Feeds(t, s)
       && if s.param == t.mode then s.parent != ROOT && p + [m[|m| - 1]] == m
          else s.param == t.config && p == m
  }

  function Parsed(t: Tree, choose: Chooser, c: Cli, tokens: seq<string>): (r: Cli)
    requires TreeOk(t) && Has(t, c.cursor)
  {
    Parse(t, choose, c, tokens).0
  }

  lemma NotEmpty(t: Tree, cursor: nat, m: seq<string>)
    requires Has(t, cursor) && Classify(t, cursor, m).Command?
    ensures m != []
  {}

  lemma BeforeSlash(t: Tree, choose: Chooser, s: Trail, p: seq<string>, x: string)
    requires TreeOk(t) && Has(t, s.param) && s.status == COMPLETE
    requires Walk(t, choose, s, p + [x]).status == COMPLETE && Walk(t, choose, s, p + [x]).param == t.mode
    ensures var r, b := Walk(t, choose, s, p + [x]), Walk(t, choose, s, p);
            b.status == COMPLETE && b == r.(param := r.parent, parent := b.parent) && Proper(t, b.param)
  {
    hide FindMatching, LibOk;
    WalkConcat(t, choose, s, p, [x]);
    var b := Walk(t, choose, s, p);
    assert Walk(t, choose, b, [x]) == if b.status == COMPLETE then WalkStep(t, choose, b, x) else b;
    assert b.status == COMPLETE;
    assert ParamOk(t, b.param);
    assert ParamOk(t, t.mode);
    var r := WalkStep(t, choose, b, x);
    assert r.status == COMPLETE;
    var f := FindMatching(t, choose, t.params[b.param].options, x);
    assert f == Some(t.mode);
    assert OptionOk(t, b.param, t.mode);
  }

  /** The mode's cursor and buffer are where the walk along `p` ended. */
  lemma ModeEntered(t: Tree, choose: Chooser, c: Cli, p: seq<string>, m: seq<string>)
    requires TreeOk(t) && Inv(t, c) && Enters(t, choose, c, p, m)
    ensures var s, r := Walk(t, choose, StartTrail(c), p), Parsed(t, choose, c, m);
            && s.status == COMPLETE && Inv(t, r) && r.cursor != ROOT
            && r.cursor == s.param && r.buf == s.tlvs && r.holders == s.holders
  {
    NotEmpty(t, c.cursor, m);
    var s := Walk(t, choose, StartTrail(c), m);
    StartOk(t, c);
    WalkDown(t, choose, StartTrail(c), m);
    WalkEnds(t, choose, StartTrail(c), m);
    DispatchCases(t, c.(buf := s.tlvs, holders := s.holders), s);
    BuildKeepsInv(t, choose, c, m);
    if s.param == t.mode {
      BeforeSlash(t, choose, StartTrail(c), p, m[|m| - 1]);
    }
  }

  // ---- typing the rest

  /** What the line added to the log. */
  function Delivered(c: Cli, r: Cli): seq<Delivery>
    requires c.log <= r.log
  {
    r.log[|c.log|..]
  }

  /** The handler called for the trail is told to enable or to disable. */
  predicate TellsMode(t: Tree, s: Trail)
    requires Has(t, s.param) && Has(t, s.parent) && s.param != ROOT
  {
    && s.status == COMPLETE && t.params[s.param].hasCallback
    && s.param != t.brief && s.param != t.suboptions && s.param != t.expansion
    && if s.param == t.mode then s.parent != ROOT && t.params[s.parent].hasCallback
       else Branch(t, s.param) == t.config
  }

  /** What the application gets for a trail that used up the whole line. */
  function Sent(t: Tree, s: Trail): seq<Delivery>
    requires Has(t, s.param) && Has(t, s.parent) && s.param != ROOT
  {
    var told := if s.disabled then CONFIG_DISABLE else CONFIG_ENABLE;
    var code := [CodeTlv(t, if Special(t, s.param) then s.parent else s.param)];
    if !t.params[s.param].hasCallback || s.param == t.expansion then []
    else if s.param == t.brief then
      if t.params[s.parent].hasCallback then [Handler(s.parent, s.tlvs + [SHOW_BRIEF] + code, OPERATIONAL)] else []
    else if s.param == t.suboptions then
      if t.params[s.parent].hasDisplay then [Suggest(s.parent, s.tlvs + [DUMMY])] else []
    else if s.param == t.mode then
      if s.parent != ROOT && t.params[s.parent].hasCallback then [Handler(s.parent, s.tlvs + code, told)] else []
    else
      var hook := Branch(t, s.param);
      [Handler(s.param, s.tlvs + if hook != t.repeatHook && s.param != t.config then code else [],
               if hook == t.config then told else OPERATIONAL)]
  }

  lemma DispatchSends(t: Tree, c: Cli, s: Trail)
    requires TreeOk(t) && Has(t, s.param) && Has(t, s.parent) && s.param != ROOT && c.buf == s.tlvs
    ensures Dispatch(t, c, s).0.log == c.log + Sent(t, s)
  {
    hide Branch, CodeTlv;
    assert c.buf + [] == c.buf && c.log + [] == c.log;
  }

  /** Two trails alike send the same, unless the handler is told the mode and one of them saw `no`. */
  lemma SentAlike(t: Tree, s1: Trail, s2: Trail)
    requires Has(t, s1.param) && Has(t, s1.parent) && s1.param != ROOT
    requires Alike(s1, s2) && s1.parent == s2.parent && s1.status == COMPLETE
    ensures Sent(t, s1) == Sent(t, s2) <==> s1.disabled == s2.disabled || !TellsMode(t, s1)
    ensures Same(Sent(t, s1), Sent(t, s2))
  {
    hide Branch, CodeTlv;
    if s1.disabled != s2.disabled && TellsMode(t, s1) {
      assert Sent(t, s1)[0].mode != Sent(t, s2)[0].mode;
    }
  }

  /** The line moves the cursor: it enters a mode, or runs the handler of `config`. */
  predicate Moves(t: Tree, s: Trail) {
    s.status == COMPLETE && (s.param == t.config || RemarksConfig(t, s) || (s.param == t.mode && s.parent != ROOT))
  }

  lemma DispatchAlike(t: Tree, c1: Cli, c2: Cli, s1: Trail, s2: Trail)
    requires TreeOk(t) && Has(t, s1.param) && Has(t, s1.parent) && s1.param != ROOT
    requires Alike(s1, s2) && s1.parent == s2.parent && s1.status == COMPLETE
    requires c1.buf == c2.buf && c1.holders == c2.holders && c1.cursor != ROOT
    ensures var (r1, st1), (r2, st2) := Dispatch(t, c1, s1), Dispatch(t, c2, s2);
            && st1 == st2 && r1.buf == r2.buf && r1.holders == r2.holders
            && (Moves(t, s1) ==> r1.cursor == r2.cursor && r1.checkpoint == r2.checkpoint)
            && (!Moves(t, s1) && (s1.param != t.mode) ==> r1.cursor == c1.cursor && r1.checkpoint == c1.checkpoint)
  {
    hide Branch, CodeTlv;
    assert ParamOk(t, s1.param) && ParamOk(t, t.config);
  }

  lemma CommandSends(t: Tree, choose: Chooser, c: Cli, m: seq<string>)
    requires TreeOk(t) && Has(t, c.cursor) && Classify(t, c.cursor, m).Command? && Covered(t, choose, c, m)
    ensures var s, r := Walk(t, choose, StartTrail(c), m), Parsed(t, choose, c, m);
            && Has(t, s.parent) && (s.status == COMPLETE ==> s.param != ROOT)
            && c.log <= r.log && Delivered(c, r) == if s.status == COMPLETE then Sent(t, s) else []
  {
    hide TreeOk, Walk, Dispatch, Sent, Classify;
    NotEmpty(t, c.cursor, m);
    WalkEnds(t, choose, StartTrail(c), m);
    var s := Walk(t, choose, StartTrail(c), m);
    if s.status == COMPLETE {
      DispatchSends(t, c.(buf := s.tlvs, holders := s.holders), s);
    }
  }

  // ---- a mode, and modes within modes

  ghost predicate EntersAll(t: Tree, choose: Chooser, c: Cli, ps: seq<seq<string>>, ms: seq<seq<string>>)
    requires TreeOk(t) && Inv(t, c)
    decreases |ps|
  {
    && |ps| == |ms|
    && (ps != [] ==>
          && Enters(t, choose, c, ps[0], ms[0]) && Inv(t, Parsed(t, choose, c, ms[0]))
          && EntersAll(t, choose, Parsed(t, choose, c, ms[0]), ps[1..], ms[1..]))
  }

  ghost function AfterAll(t: Tree, choose: Chooser, c: Cli, ps: seq<seq<string>>, ms: seq<seq<string>>): (r: Cli)
    requires TreeOk(t) && Inv(t, c) && EntersAll(t, choose, c, ps, ms)
    ensures Inv(t, r)
    decreases |ps|
  {
    if ps == [] then c else AfterAll(t, choose, Parsed(t, choose, c, ms[0]), ps[1..], ms[1..])
  }

  /** In the mode the walk along `q` is the walk along everything typed, but for an earlier `no`. */
  lemma {:induction false} WalkInModes(t: Tree, choose: Chooser, c: Cli, ps: seq<seq<string>>, ms: seq<seq<string>>,
          q: seq<string>)
    requires TreeOk(t) && Inv(t, c) && EntersAll(t, choose, c, ps, ms) && q != []
    ensures var s1, s2 := Walk(t, choose, StartTrail(AfterAll(t, choose, c, ps, ms)), q),
        Walk(t, choose, StartTrail(c), Flatten(ps) + q);
            Alike(s1, s2) && s1.parent == s2.parent
    decreases |ps|
  {
    hide TreeOk, PathTlvs, Walk, Parsed, Enters;
    if ps == [] {
      assert Flatten(ps) + q == q;
    } else {
      var c', rest := Parsed(t, choose, c, ms[0]), Flatten(ps[1..]) + q;
      WalkInModes(t, choose, c', ps[1..], ms[1..], q);
      ModeEntered(t, choose, c, ps[0], ms[0]);
      assert Flatten(ps) + q == ps[0] + rest;
      WalkConcat(t, choose, StartTrail(c), ps[0], rest);
      WalkAlike(t, choose, StartTrail(c'), Walk(t, choose, StartTrail(c), ps[0]), rest);
    }
  }

  /** The trail of `q` in the mode that the lines `ms` entered. */
  ghost function TrailInMode(t: Tree, choose: Chooser, c: Cli, ps: seq<seq<string>>, ms: seq<seq<string>>,
          q: seq<string>): Trail
    requires TreeOk(t) && Inv(t, c) && EntersAll(t, choose, c, ps, ms)
  {
    Walk(t, choose, StartTrail(AfterAll(t, choose, c, ps, ms)), q)
  }

  /** `q` is a command in that mode, and so is all of it typed before the first of the lines. */
  ghost predicate BothCommands(t: Tree, choose: Chooser, c: Cli, ps: seq<seq<string>>, ms: seq<seq<string>>,
          q: seq<string>)
    requires TreeOk(t) && Inv(t, c) && EntersAll(t, choose, c, ps, ms)
  {
    && Classify(t, AfterAll(t, choose, c, ps, ms).cursor, q).Command? && Classify(t, c.cursor, Flatten(ps) + q).Command?
    && !Feeds(t, TrailInMode(t, choose, c, ps, ms, q))
  }

  /** A `no` was typed before a `/` and none after, and the handler is told about enabling. */
  ghost predicate NegationLost(t: Tree, choose: Chooser, c: Cli, ps: seq<seq<string>>, ms: seq<seq<string>>,
          q: seq<string>)
    requires TreeOk(t) && Inv(t, c) && EntersAll(t, choose, c, ps, ms)
  {
    var s1, s2 := TrailInMode(t, choose, c, ps, ms, q), Walk(t, choose, StartTrail(c), Flatten(ps) + q);
    && Has(t, s1.parent) && s1.param != ROOT && s1.status == COMPLETE
    && s1.disabled != s2.disabled && TellsMode(t, s1)
  }

  /** Typing `q` in the mode that the lines `ms` entered step by step, and typing all of it at once
      before them, call the same handler with the same TLVs and command code; what it is told about
      enabling is the same as well, exactly unless a negation is lost. */
  lemma ModesAreTransparent(t: Tree, choose: Chooser, c: Cli, ps: seq<seq<string>>, ms: seq<seq<string>>,
          q: seq<string>)
    requires TreeOk(t) && Inv(t, c) && ps != [] && EntersAll(t, choose, c, ps, ms)
        && BothCommands(t, choose, c, ps, ms, q)
    ensures var c1 := AfterAll(t, choose, c, ps, ms);
            var r1, r2 := Parsed(t, choose, c1, q), Parsed(t, choose, c, Flatten(ps) + q);
            && c1.log <= r1.log && c.log <= r2.log && Same(Delivered(c1, r1), Delivered(c, r2))
            && (Delivered(c1, r1) == Delivered(c, r2) <==> !NegationLost(t, choose, c, ps, ms, q))
  {
    hide TreeOk, Walk, Parsed, Sent, Classify, EntersAll, AfterAll, PathTlvs, TellsMode;
    var c1, all := AfterAll(t, choose, c, ps, ms), Flatten(ps) + q;
    NotEmpty(t, c1.cursor, q);
    WalkInModes(t, choose, c, ps, ms, q);
    CommandSends(t, choose, c1, q);
    CommandSends(t, choose, c, all);
    var s1, s2 := Walk(t, choose, StartTrail(c1), q), Walk(t, choose, StartTrail(c), all);
    if s1.status == COMPLETE {
      SentAlike(t, s1, s2);
    }
  }

  /** The same parameter's handler and the same TLVs, whatever the mode. */
  predicate Same(a: seq<Delivery>, b: seq<Delivery>) {
    |a| == |b| && forall i | 0 <= i < |a| ::
      a[i].param == b[i].param && a[i].tlvs == b[i].tlvs && a[i].Handler? == b[i].Handler?
  }

  /** They have the same status and read the same values into the holders, and if the command
      enters a mode it is the same one; otherwise one stays in the mode it was typed in. */
  lemma ModesEndAlike(t: Tree, choose: Chooser, c: Cli, ps: seq<seq<string>>, ms: seq<seq<string>>, q: seq<string>)
    requires TreeOk(t) && Inv(t, c) && ps != [] && EntersAll(t, choose, c, ps, ms)
        && BothCommands(t, choose, c, ps, ms, q)
    ensures var c1 := AfterAll(t, choose, c, ps, ms);
            var (r1, st1), (r2, st2) := Parse(t, choose, c1, q), Parse(t, choose, c, Flatten(ps) + q);
            && st1 == st2 && r1.holders == r2.holders
            && if Moves(t, TrailInMode(t, choose, c, ps, ms, q)) then r1 == r2.(log := r1.log)
               else r1.cursor == c1.cursor && r1.buf == c1.buf && r1.checkpoint == c1.checkpoint
  {
    hide TreeOk, Walk, Dispatch, Sent, Classify, EntersAll, AfterAll, PathTlvs;
    var c1, all := AfterAll(t, choose, c, ps, ms), Flatten(ps) + q;
    NotEmpty(t, c1.cursor, q);
    WalkInModes(t, choose, c, ps, ms, q);
    var s1, s2 := Walk(t, choose, StartTrail(c1), q), Walk(t, choose, StartTrail(c), all);
    InMode(t, choose, c, ps, ms);
    SameEnd(t, choose, c1, c, s1, s2, q, all);
    if !Moves(t, s1) {
      StaysPut(t, choose, c1, q);
    }
  }

  lemma {:induction false} InMode(t: Tree, choose: Chooser, c: Cli, ps: seq<seq<string>>, ms: seq<seq<string>>)
    requires TreeOk(t) && Inv(t, c) && EntersAll(t, choose, c, ps, ms) && ps != []
    ensures AfterAll(t, choose, c, ps, ms).cursor != ROOT
    decreases |ps|
  {
    hide TreeOk, PathTlvs, Parsed, Enters;
    ModeEntered(t, choose, c, ps[0], ms[0]);
    if |ps| > 1 {
      InMode(t, choose, Parsed(t, choose, c, ms[0]), ps[1..], ms[1..]);
    } else {
      assert AfterAll(t, choose, c, ps, ms) == Parsed(t, choose, c, ms[0]);
    }
  }

  /** A command that enters no mode leaves cursor, buffer and checkpoint as they were. */
  lemma StaysPut(t: Tree, choose: Chooser, c: Cli, q: seq<string>)
    requires TreeOk(t) && Inv(t, c) && c.cursor != ROOT && Classify(t, c.cursor, q).Command?
    requires !Moves(t, Walk(t, choose, StartTrail(c), q))
    ensures var r := Parsed(t, choose, c, q); r.cursor == c.cursor && r.buf == c.buf && r.checkpoint == c.checkpoint
  {
    hide Walk, Dispatch, Classify, PathTlvs, ParamOk;
    NotEmpty(t, c.cursor, q);
    var s := Walk(t, choose, StartTrail(c), q);
    StartOk(t, c);
    WalkEnds(t, choose, StartTrail(c), q);
    WalkDown(t, choose, StartTrail(c), q);
    if s.status == COMPLETE {
      var c' := c.(buf := s.tlvs, holders := s.holders);
      DispatchCases(t, c', s);
      assert !(s.param == t.mode && s.parent == ROOT);
      assert Dispatch(t, c', s).0.buf[..|c.buf|] == s.tlvs[..|c.buf|] == c.buf;
    }
  }

  lemma SameEnd(t: Tree, choose: Chooser, c1: Cli, c2: Cli, s1: Trail, s2: Trail, q1: seq<string>, q2: seq<string>)
    requires TreeOk(t) && Inv(t, c1) && c1.cursor != ROOT && Inv(t, c2)
    requires Classify(t, c1.cursor, q1).Command? && Classify(t, c2.cursor, q2).Command?
    requires s1 == Walk(t, choose, StartTrail(c1), q1) && s2 == Walk(t, choose, StartTrail(c2), q2)
    requires Alike(s1, s2) && s1.parent == s2.parent
    ensures var (r1, st1), (r2, st2) := Parse(t, choose, c1, q1), Parse(t, choose, c2, q2);
            && st1 == st2 && r1.holders == r2.holders
            && (Moves(t, s1) ==> r1 == r2.(log := r1.log))
  {
    hide Walk, Dispatch, Classify, PathTlvs, TreeOk;
    NotEmpty(t, c1.cursor, q1);
    NotEmpty(t, c2.cursor, q2);
    WalkEnds(t, choose, StartTrail(c1), q1);
    WalkEnds(t, choose, StartTrail(c2), q2);
    if s1.status == COMPLETE {
      DispatchAlike(t, c1.(buf := s1.tlvs, holders := s1.holders), c2.(buf := s2.tlvs, holders := s2.holders), s1, s2);
    }
  }

  // ---- cd.. takes a mode back

  function Depth(t: Tree, p: nat): nat
    requires Has(t, p)
    decreases p
  {
    if p == ROOT || t.params[p].parent >= p then 0 else 1 + Depth(t, t.params[p].parent)
  }

  function Ancestor(t: Tree, p: nat, k: nat): (r: nat)
    requires Has(t, p)
    ensures Has(t, r)
    decreases k
  {
    if k == 0 || p == ROOT || t.params[p].parent >= p then p else Ancestor(t, t.params[p].parent, k - 1)
  }

  lemma {:induction false} AncestorStep(t: Tree, p: nat, k: nat)
    requires Has(t, p)
    ensures Ancestor(t, p, k + 1) == Ancestor(t, Ancestor(t, p, k), 1)
    decreases k
  {
    if k != 0 && p != ROOT && t.params[p].parent < p {
      AncestorStep(t, t.params[p].parent, k - 1);
    }
  }

  lemma {:induction false} AncestorDepth(t: Tree, p: nat, k: nat)
    requires Has(t, p) && k <= Depth(t, p)
    ensures Depth(t, Ancestor(t, p, k)) == Depth(t, p) - k
    decreases k
  {
    if k != 0 {
      AncestorDepth(t, t.params[p].parent, k - 1);
    }
  }

  /** How many of the tokens were taken as `no`. */
  function Negations(t: Tree, choose: Chooser, s: Trail, tokens: seq<string>): (n: nat)
    requires TreeOk(t) && Has(t, s.param)
    ensures n <= |tokens|
    decreases |tokens|
  {
    if tokens == [] || s.status != COMPLETE then 0
    else
      var r := WalkStep(t, choose, s, tokens[0]);
      var n := Negations(t, choose, r, tokens[1..]);
      if r.status == COMPLETE && t.params[r.param].kind.NoCmd? then n + 1 else n
  }

  lemma {:induction false} WalkDepth(t: Tree, choose: Chooser, s: Trail, tokens: seq<string>)
    requires TreeOk(t) && TrailOk(t, s) && !Special(t, s.param) && s.status == COMPLETE
    requires var r := Walk(t, choose, s, tokens); r.status == COMPLETE && Proper(t, r.param)
    ensures var r, k := Walk(t, choose, s, tokens), |tokens| - Negations(t, choose, s, tokens);
            && TrailOk(t, r) && Spot(t, r) == r.param
            && Depth(t, r.param) == Depth(t, Spot(t, s)) + k && Ancestor(t, r.param, k) == Spot(t, s)
    decreases |tokens|
  {
    hide WalkStep, PathTlvs, ParamOk, SameUpTo;
    if tokens != [] {
      var s', rest := WalkStep(t, choose, s, tokens[0]), tokens[1..];
      StepDown(t, choose, s, tokens[0]);
      if Special(t, s'.param) {
        SpecialLast(t, choose, s', rest);
        assert false;
      } else {
        WalkDepth(t, choose, s', rest);
        AncestorStep(t, Walk(t, choose, s, tokens).param, |rest| - Negations(t, choose, s', rest));
      }
    }
  }

  lemma SpecialLast(t: Tree, choose: Chooser, s: Trail, tokens: seq<string>)
    requires TreeOk(t) && Has(t, s.param) && Special(t, s.param)
    ensures Walk(t, choose, s, tokens).status == COMPLETE ==> Walk(t, choose, s, tokens).param == s.param
  {
    if tokens != [] && s.status == COMPLETE {
      SpecialEnds(t, choose, s, tokens[0]);
    }
  }

  const CD_UP := ["cd.."]

  lemma CdUp(t: Tree, choose: Chooser, c: Cli)
    requires TreeOk(t) && Has(t, c.cursor)
    ensures Parsed(t, choose, c, CD_UP) == Settle(GoUp(t, c))
  {
    assert "cd.."[0] != "repeat"[0];
    assert !IsPrefix("cd..", "repeat");
  }

  function Ups(t: Tree, choose: Chooser, c: Cli, k: nat): Option<Cli>
    requires TreeOk(t) && Has(t, c.cursor)
    decreases k
  {
    var r := Parsed(t, choose, c, CD_UP);
    if k == 0 then Some(c) else if Has(t, r.cursor) then Ups(t, choose, r, k - 1) else None
  }

  lemma {:induction false} UpsLand(t: Tree, choose: Chooser, c: Cli, k: nat)
    requires TreeOk(t) && Inv(t, c)
    ensures var r := Ups(t, choose, c, k);
            && r.Some? && Inv(t, r.value) && r.value.cursor == Ancestor(t, c.cursor, k) <= c.cursor
            && SameUpTo(c.holders, r.value.holders, r.value.cursor)
    decreases k
  {
    hide PathTlvs;
    if k != 0 {
      CdUp(t, choose, c);
      GoUpKeepsInv(t, c);
      var c' := Parsed(t, choose, c, CD_UP);
      UpsLand(t, choose, c', k - 1);
      assert forall q: nat | q < c.cursor || c.cursor == ROOT :: Held(c.holders, q) == Held(c'.holders, q);
    }
  }

  lemma SamePath(t: Tree, p: nat, h: Holders, h1: Holders, h2: Holders)
    requires Has(t, p) && SameUpTo(h, h1, p) && SameUpTo(h1, h2, p)
    ensures PathTlvs(t, p, h) == PathTlvs(t, p, h2)
  {
    PathFrame(t, p, h, h2);
  }

  /** `k` uses of `cd..`, and no fewer, lead from `c1` back to where `c` was. */
  ghost predicate Undoes(t: Tree, choose: Chooser, c1: Cli, c: Cli, k: nat)
    requires TreeOk(t) && Has(t, c1.cursor)
  {
    && Ups(t, choose, c1, k).Some?
    && var r := Ups(t, choose, c1, k).value;
       && r.cursor == c.cursor && r.buf == c.buf && r.checkpoint == c.checkpoint
       && forall j: nat | j < k :: Ups(t, choose, c1, j).Some? && Ups(t, choose, c1, j).value.cursor != c.cursor
  }

  /** After the line that entered the mode, `cd..` once for every token but the `no`s brings back
      cursor, buffer and checkpoint, for any mix of commands and leaves; fewer do not. */
  lemma CdUpUndoesAMode(t: Tree, choose: Chooser, c: Cli, p: seq<string>, m: seq<string>)
    requires TreeOk(t) && Inv(t, c) && Enters(t, choose, c, p, m)
    ensures var c1, k := Parsed(t, choose, c, m), |p| - Negations(t, choose, StartTrail(c), p);
            Has(t, c1.cursor) && Undoes(t, choose, c1, c, k)
  {
    hide TreeOk, Walk, Parsed, Enters, PathTlvs, Ups, Depth, Ancestor, Negations, SameUpTo;
    var c1, k := Parsed(t, choose, c, m), |p| - Negations(t, choose, StartTrail(c), p);
    StartOk(t, c);
    ModeEntered(t, choose, c, p, m);
    WalkDown(t, choose, StartTrail(c), p);
    WalkDepth(t, choose, StartTrail(c), p);
    UpsLand(t, choose, c1, k);
    var r := Ups(t, choose, c1, k).value;
    SamePath(t, c.cursor, c.holders, c1.holders, r.holders);
    forall j: nat | j < k
      ensures Ups(t, choose, c1, j).Some? && Ups(t, choose, c1, j).value.cursor != c.cursor
    {
      UpsLand(t, choose, c1, j);
      AncestorDepth(t, c1.cursor, j);
    }
  }
}
