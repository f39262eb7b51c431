/** Lines that have further lines parsed before they are done: `show history` runs the line picked
    from it, `repeat` the one before, `run ut` those of a script.  The handler does so behind the
    command code of its own line, which is why the lines it feeds can break what other lines keep,
    and a script ends the program when one of its lines does not come to a good end. */
module CliNested {
  import opened CliTree
  import opened CliModel
  import opened CliLaws
  import opened CliBounds
  import opened CliModes

  /** A line with the lines it will feed to the parser, in order.  `Aborted` ends the lines of a script
      where an assertion of its runner fails, as it does at once when there is no such file. */
  datatype Line = Line(typed: Typed, fed: Lines)
  datatype Lines = Nil | Aborted | Cons(head: Line, tail: Lines)

  /** The program has no parent pointer to follow at the do hook, asserts that a `do` leaves the user
      neither at the root nor in the config branch, and makes the assertions of scripts; then it ends. */
  datatype Outcome = Crashed | Done(cli: Cli)

  /** What goes up from the do hook, or asks for its branch. */
  predicate Stranded(k: LineKind) {
    k.Do? || k.DoElsewhere? || k.Up? || k.Top?
  }

  /** `config load` reads its file in another way and is not modelled. */
  predicate Loads(tokens: seq<string>) {
    |tokens| == 3 && IsPrefix("config", tokens[0]) && IsPrefix("load", tokens[1])
  }

  predicate Loadless(l: Line)
    decreases l
  {
    !Loads(l.typed.tokens) && AllLoadless(l.fed)
  }

  predicate AllLoadless(ls: Lines)
    decreases ls
  {
    ls.Cons? ==> Loadless(ls.head) && AllLoadless(ls.tail)
  }

  function Close(o: Outcome): Outcome {
    if o.Done? then Done(Settle(o.cli)) else o
  }

  /** The end of a `do` line that began at `c` and has come to `o`. */
  function AfterDo(t: Tree, c: Cli, o: Outcome): Outcome
    requires Has(t, c.cursor)
  {
    if o.Crashed? then o
    else if o.cli.cursor == t.doHook then
      var path := PathTlvs(t, c.cursor, o.cli.holders);
      Done(o.cli.(cursor := c.cursor, buf := path, checkpoint := |path|))
    else if o.cli.cursor == ROOT || !Has(t, o.cli.cursor) || Branch(t, o.cli.cursor) == t.config then Crashed
    else o
  }

  /** The status the parser returns for the line, which is settled before any line is fed. */
  predicate Fails(t: Tree, c: Cli, m: Typed)
    requires TreeOk(t) && Has(t, c.cursor)
  {
    Parse(t, m.choose, c, m.tokens).1 != COMPLETE
  }

  /** `parse_input_cmd` with everything that happens inside it. */
  function Enter(t: Tree, c: Cli, l: Line): Outcome
    requires TreeOk(t) && Has(t, c.cursor) && Loadless(l)
    decreases l, 2
  {
    var k := Classify(t, c.cursor, l.typed.tokens);
    if c.cursor == t.doHook && Stranded(k) then Crashed
    else match k
      case Empty => Done(c)
      case Repeat => Close(Feed(t, c, l.fed, false))
      case RunUt => Close(Feed(t, c, l.fed, true))
      case Command => Close(Execute(t, c, l, l.typed.tokens))
      case Do => Close(AfterDo(t, c, Execute(t, AtDoHook(t, c), l, l.typed.tokens[1..])))
      case Up => Done(Settle(GoUp(t, c)))
      case Top => Done(Settle(GoTop(t, c)))
      case _ => Done(Settle(c))
  }

  /** A command with the lines its handler has parsed. */
  function Execute(t: Tree, c: Cli, l: Line, tokens: seq<string>): Outcome
    requires TreeOk(t) && Has(t, c.cursor) && Loadless(l) && tokens != []
    decreases l, 1
  {
    var s, r := Walk(t, l.typed.choose, StartTrail(c), tokens), Build(t, l.typed.choose, c, tokens).0;
    if Feeds(t, s) then Feed(t, r, l.fed, Feeding(t, s).Script?) else Done(r)
  }

  /** The lines a handler feeds, one after the other.  A script asserts that each was complete. */
  function Feed(t: Tree, c: Cli, ls: Lines, script: bool): Outcome
    requires TreeOk(t) && AllLoadless(ls)
    decreases ls, 0
  {
    match ls
    case Nil => Done(c)
    case Aborted => if script then Crashed else Done(c)
    case Cons(l, rest) =>
      if !Has(t, c.cursor) then Crashed
      else
        var o := Enter(t, c, l);
        if o.Crashed? || (script && Fails(t, c, l.typed)) then Crashed else Feed(t, o.cli, rest, script)
  }

  /** A line that feeds nothing is what the model of a single line says. */
  lemma NothingFed(t: Tree, c: Cli, l: Line)
    requires TreeOk(t) && Proper(t, c.cursor) && Loadless(l) && Covered(t, l.typed.choose, c, l.typed.tokens)
    ensures Enter(t, c, l) == Done(Parse(t, l.typed.choose, c, l.typed.tokens).0)
  {
    if Classify(t, c.cursor, l.typed.tokens).Do? {
      DoOutcome(t, l.typed.choose, c, l.typed.tokens[1..]);
    }
  }

  /** One line to be fed, which feeds none, and how the feeding ends behind it. */
  function OneLine(q: Typed, end: Lines): Lines {
    Cons(Line(q, Nil), end)
  }

  /** A script makes an assertion fail. */
  predicate ScriptFails(t: Tree, c: Cli, q: Typed, end: Lines)
    requires TreeOk(t) && Has(t, c.cursor)
  {
    Fails(t, c, q) || end.Aborted?
  }

  lemma FeedOnly(t: Tree, c: Cli, q: Typed, end: Lines, script: bool)
    requires TreeOk(t) && Has(t, c.cursor) && AllLoadless(OneLine(q, end)) && !end.Cons?
    ensures var o := Enter(t, c, Line(q, Nil));
            Feed(t, c, OneLine(q, end), script) ==
            if o.Crashed? || (script && ScriptFails(t, c, q, end)) then Crashed else o
  {
    hide TreeOk, Fails, Enter;
    assert OneLine(q, end).head == Line(q, Nil) && OneLine(q, end).tail == end;
  }

  lemma FeedOne(t: Tree, c: Cli, q: Typed, end: Lines, script: bool)
    requires TreeOk(t) && Proper(t, c.cursor) && AllLoadless(OneLine(q, end)) && !end.Cons?
    requires Covered(t, q.choose, c, q.tokens)
    ensures Feed(t, c, OneLine(q, end), script) ==
            if script && ScriptFails(t, c, q, end) then Crashed else Done(Parse(t, q.choose, c, q.tokens).0)
  {
    hide TreeOk, Parse, Covered, Enter, Feed, ScriptFails;
    FeedOnly(t, c, q, end, script);
    NothingFed(t, c, Line(q, Nil));
  }

  // ---- the state a handler feeds its lines from

  /** The checkpoint stands at the end of the path, and there may be something behind it. */
  ghost predicate Behind(t: Tree, c: Cli) {
    && Proper(t, c.cursor)
    && c.checkpoint == |PathTlvs(t, c.cursor, c.holders)| && PathTlvs(t, c.cursor, c.holders) <= c.buf
  }

  predicate Littered(c: Cli) {
    c.checkpoint < |c.buf|
  }

  lemma InvIsBehind(t: Tree, c: Cli)
    ensures Inv(t, c) <==> Behind(t, c) && !Littered(c)
  {}

  lemma SettledBehind(t: Tree, c: Cli)
    requires TreeOk(t) && Behind(t, c)
    ensures Inv(t, Settle(c))
  {}

  /** What was in the buffer before the walk does not matter to where it leads. */
  lemma WalkAnyway(t: Tree, choose: Chooser, c: Cli, tokens: seq<string>)
    requires TreeOk(t) && Proper(t, c.cursor)
    ensures var path := PathTlvs(t, c.cursor, c.holders);
            var s, s0 := Walk(t, choose, StartTrail(c), tokens), Walk(t, choose, StartTrail(c.(buf := path)), tokens);
            && s == s0.(tlvs := s.tlvs) && |s.tlvs| - |c.buf| == |s0.tlvs| - |path|
            && c.buf <= s.tlvs && SameUpTo(c.holders, s.holders, c.cursor)
            && (s.status == COMPLETE ==>
                  PlaceOk(t, s) && c.cursor <= Spot(t, s) && s0.tlvs == PathTlvs(t, Spot(t, s), s.holders))
  {
    hide TreeOk, Walk, PathTlvs;
    var path := PathTlvs(t, c.cursor, c.holders);
    var e := StartTrail(c.(buf := []));
    WalkBehind(t, choose, e, c.buf, tokens);
    WalkBehind(t, choose, e, path, tokens);
    assert c.buf + [] == c.buf && path + [] == path;
    assert StartTrail(c) == e.(tlvs := c.buf + e.tlvs) && StartTrail(c.(buf := path)) == e.(tlvs := path + e.tlvs);
    StartOk(t, c.(buf := path, checkpoint := |path|));
    WalkDown(t, choose, StartTrail(c.(buf := path)), tokens);
  }

  /** A command line from such a state.  If it leaves its place, what littered the buffer stays in it;
      if not, nothing has happened to the part before the checkpoint. */
  lemma BuildAnyway(t: Tree, choose: Chooser, c: Cli, tokens: seq<string>)
    requires TreeOk(t) && Behind(t, c) && tokens != []
    ensures var s, d := Walk(t, choose, StartTrail(c), tokens), Build(t, choose, c, tokens).0;
            if RemarksConfig(t, s) then d.checkpoint == |d.buf| > 0 && d.cursor == t.config
            else if Moves(t, s) then
              && d.cursor != ROOT && Proper(t, d.cursor) && d.checkpoint <= |d.buf|
              && d.checkpoint == |PathTlvs(t, d.cursor, d.holders)| + (|c.buf| - c.checkpoint)
              && (!Littered(c) ==> Behind(t, d))
            else if d.cursor == ROOT then c.cursor == ROOT && (Behind(t, d) || !Feeds(t, s))
            else d.cursor == c.cursor && Behind(t, d)
  {
    hide Walk, Dispatch;
    var s, d := Walk(t, choose, StartTrail(c), tokens), Build(t, choose, c, tokens).0;
    WalkEnds(t, choose, StartTrail(c), tokens);
    WalkAnyway(t, choose, c, tokens);
    if s.status == COMPLETE {
      DispatchCases(t, c.(buf := s.tlvs, holders := s.holders), s);
      assert ParamOk(t, s.parent);
      if s.param == t.mode {
        assert OptionOk(t, s.parent, t.mode);
      }
    }
    PathFrame(t, c.cursor, c.holders, s.holders);
    if !Littered(c) {
      assert c.buf == PathTlvs(t, c.cursor, c.holders);
      assert c.(buf := PathTlvs(t, c.cursor, c.holders)) == c;
    }
  }

  // ---- one line fed, which feeds none

  /** The fed lines that spoil the buffer: those that enter a mode, for what is littered stays below
      the new checkpoint, and `cd..` from a leaf, which drops the last TLV, whosesoever it is. */
  predicate Spoils(t: Tree, choose: Chooser, c: Cli, tokens: seq<string>)
    requires TreeOk(t) && Has(t, c.cursor)
  {
    match Classify(t, c.cursor, tokens)
    case Command => Moves(t, Walk(t, choose, StartTrail(c), tokens))
    case Up => t.params[c.cursor].kind.Leaf? && t.params[c.cursor].parent != ROOT
    case _ => false
  }

  lemma UpFromLitter(t: Tree, c: Cli)
    requires TreeOk(t) && Behind(t, c) && Littered(c)
    ensures Inv(t, Settle(GoUp(t, c))) <==> !(t.params[c.cursor].kind.Leaf? && t.params[c.cursor].parent != ROOT)
  {
    assert ParamOk(t, c.cursor);
    if c.cursor != ROOT {
      PathFrame(t, t.params[c.cursor].parent, c.holders, GoUp(t, c).holders);
    }
  }

  lemma DoAnyway(t: Tree, choose: Chooser, c: Cli, tokens: seq<string>)
    requires TreeOk(t) && Proper(t, c.cursor) && Classify(t, c.cursor, tokens).Do?
    ensures Inv(t, Parse(t, choose, c, tokens).0)
  {
    DoOutcome(t, choose, c, tokens[1..]);
  }

  lemma CommandAnyway(t: Tree, choose: Chooser, c: Cli, tokens: seq<string>)
    requires TreeOk(t) && Behind(t, c) && Littered(c) && tokens != []
        && !Feeds(t, Walk(t, choose, StartTrail(c), tokens))
    ensures Inv(t, Settle(Settle(Build(t, choose, c, tokens).0))) <==> !Moves(t, Walk(t, choose, StartTrail(c), tokens))
  {
    hide PathTlvs, Walk, Build;
    BuildAnyway(t, choose, c, tokens);
    var s, d := Walk(t, choose, StartTrail(c), tokens), Build(t, choose, c, tokens).0;
    ConfigPath(t, d.holders);
    if !Moves(t, s) {
      if d.cursor == ROOT {
        TopAnyway(t, d.(cursor := ROOT));
      } else {
        SettledBehind(t, d);
      }
    }
  }

  lemma ConfigPath(t: Tree, h: Holders)
    requires TreeOk(t)
    ensures PathTlvs(t, t.config, h) == [] && PathTlvs(t, ROOT, h) == []
  {}

  /** A line fed from behind a command code leaves the buffer equal to the path, exactly unless it is
      one of those that spoil it. */
  lemma FedLine(t: Tree, choose: Chooser, c: Cli, tokens: seq<string>)
    requires TreeOk(t) && Behind(t, c) && Littered(c) && Covered(t, choose, c, tokens)
    ensures Inv(t, Settle(Parse(t, choose, c, tokens).0)) <==> !Spoils(t, choose, c, tokens)
  {
    hide PathTlvs, Walk, Build, GoUp, TreeOk;
    var d := Parse(t, choose, c, tokens).0;
    match Classify(t, c.cursor, tokens)
    case Empty => SettledBehind(t, c);
    case Do => DoAnyway(t, choose, c, tokens);
    case Up => UpFromLitter(t, c);
    case Top => TopAnyway(t, c);
    case Command => CommandAnyway(t, choose, c, tokens);
    case _ => SettledBehind(t, c);
  }

  lemma TopAnyway(t: Tree, c: Cli)
    requires TreeOk(t) && Proper(t, c.cursor)
    ensures Inv(t, Settle(Settle(GoTop(t, c))))
  {}

  lemma FeedingLitters(t: Tree, choose: Chooser, c: Cli, tokens: seq<string>)
    requires TreeOk(t) && Behind(t, c) && tokens != [] && Feeds(t, Walk(t, choose, StartTrail(c), tokens))
    ensures var s, d := Walk(t, choose, StartTrail(c), tokens), Build(t, choose, c, tokens).0;
            !RemarksConfig(t, s) && Littered(d) && (!Littered(c) || !Moves(t, s) ==> Behind(t, d))
  {
    hide PathTlvs, Walk;
    BuildAnyway(t, choose, c, tokens);
    WalkAnyway(t, choose, c, tokens);
    WalkEnds(t, choose, StartTrail(c), tokens);
    var s := Walk(t, choose, StartTrail(c), tokens);
    assert ParamOk(t, s.param) && ParamOk(t, Called(t, s).value);
  }

  /** A command line whose handler feeds one line to the parser, which is there between ordinary
      lines: the program ends if and only if that is a script's line that fails, or its runner does;
      otherwise the invariant is kept if and only if the line fed is not one of those that spoil it. */
  lemma FedLineKeepsInv(t: Tree, c: Cli, m: Typed, q: Typed, end: Lines)
    requires TreeOk(t) && Inv(t, c) && Classify(t, c.cursor, m.tokens).Command?
        && Loadless(Line(m, OneLine(q, end))) && !end.Cons?
    requires Feeds(t, Walk(t, m.choose, StartTrail(c), m.tokens))
    requires var d := Build(t, m.choose, c, m.tokens).0; Has(t, d.cursor) && Covered(t, q.choose, d, q.tokens)
    ensures var d, o := Build(t, m.choose, c, m.tokens).0, Enter(t, c, Line(m, OneLine(q, end)));
            var script := Feeding(t, Walk(t, m.choose, StartTrail(c), m.tokens)).Script?;
            && (o.Crashed? <==> script && ScriptFails(t, d, q, end))
            && (o.Done? ==> (Inv(t, o.cli) <==> !Spoils(t, q.choose, d, q.tokens)))
  {
    hide PathTlvs, Walk, Build, Spoils, TreeOk, Parse, ScriptFails, Feed;
    InvIsBehind(t, c);
    FeedingLitters(t, m.choose, c, m.tokens);
    var d := Build(t, m.choose, c, m.tokens).0;
    FedLine(t, q.choose, d, q.tokens);
    FeedOne(t, d, q, end, Feeding(t, Walk(t, m.choose, StartTrail(c), m.tokens)).Script?);
  }

  /** `repeat` and `run ut` feed their lines from the state they find: one line fed keeps the invariant
      if and only if it would have kept it when typed, and only a script can end the program. */
  lemma RepeatedLineKeepsInv(t: Tree, c: Cli, m: Typed, q: Typed, end: Lines)
    requires TreeOk(t) && Inv(t, c) && Loadless(Line(m, OneLine(q, end))) && !end.Cons?
    requires var k := Classify(t, c.cursor, m.tokens); k.Repeat? || k.RunUt?
    requires Covered(t, q.choose, c, q.tokens)
    ensures var k, o := Classify(t, c.cursor, m.tokens), Enter(t, c, Line(m, OneLine(q, end)));
            && (o.Crashed? <==> k.RunUt? && ScriptFails(t, c, q, end))
            && (o.Done? ==>
                  (Inv(t, o.cli) <==> !(Classify(t, c.cursor, q.tokens).Command?
                                        && RemarksConfig(t, Walk(t, q.choose, StartTrail(c), q.tokens)))))
  {
    hide PathTlvs, Walk, Build, TreeOk, Parse, ScriptFails, Feed;
    FeedOne(t, c, q, end, Classify(t, c.cursor, m.tokens).RunUt?);
    EveryLineKeepsInv(t, q.choose, c, q.tokens);
    SettledTwice(t, q.choose, c, q.tokens);
  }

  lemma SettledTwice(t: Tree, choose: Chooser, c: Cli, tokens: seq<string>)
    requires TreeOk(t) && Inv(t, c)
    ensures var r := Parse(t, choose, c, tokens).0; Settle(r) == r
  {
    hide Act, TreeOk;
    assert c.buf[..|c.buf|] == c.buf;
  }

  // ---- a line fed during a do command

  /** A command line typed at the do hook, whatever is in the buffer. */
  lemma HookBuild(t: Tree, choose: Chooser, c: Cli, tokens: seq<string>)
    requires TreeOk(t) && c.cursor == t.doHook && c.checkpoint == 0 && tokens != []
    ensures var s, d := Walk(t, choose, StartTrail(c), tokens), Build(t, choose, c, tokens).0;
            && SameInConfig(t, c.holders, d.holders)
            && if Moves(t, s) then
                 && Proper(t, d.cursor) && d.cursor != ROOT && Branch(t, d.cursor) != t.config
                    && d.checkpoint <= |d.buf|
                 && d.checkpoint == |PathTlvs(t, d.cursor, d.holders)| + |c.buf| && (c.buf == [] ==> Behind(t, d))
               else d.cursor == t.doHook && d.checkpoint == 0
  {
    hide Walk, Dispatch;
    var e := StartTrail(c.(buf := []));
    var s, s0 := Walk(t, choose, StartTrail(c), tokens), Walk(t, choose, e, tokens);
    WalkBehind(t, choose, e, c.buf, tokens);
    assert c.buf + [] == c.buf;
    OffConfigWalk(t, choose, e, tokens);
    WalkEnds(t, choose, e, tokens);
    if s.status == COMPLETE {
      DispatchCases(t, c.(buf := s.tlvs, holders := s.holders), s);
      assert ParamOk(t, s.parent);
      if s.param == t.mode {
        assert OptionOk(t, s.parent, t.mode);
      }
    }
  }

  lemma DoHookKnown(t: Tree)
    requires TreeOk(t)
    ensures Has(t, t.doHook) && t.doHook != ROOT && !Special(t, t.doHook)
  {}

  lemma HookFeedLitters(t: Tree, choose: Chooser, c: Cli, tokens: seq<string>)
    requires TreeOk(t) && c.cursor == t.doHook && tokens != []
    requires var s := Walk(t, choose, StartTrail(c), tokens); Feeds(t, s) && !Moves(t, s)
    ensures Build(t, choose, c, tokens).0.buf != []
  {
    hide Walk, PathTlvs;
    WalkEnds(t, choose, StartTrail(c), tokens);
    var s := Walk(t, choose, StartTrail(c), tokens);
    assert ParamOk(t, s.param) && ParamOk(t, Called(t, s).value);
  }

  /** A line fed at the do hook. */
  lemma HookLine(t: Tree, c: Cli, q: Typed)
    requires TreeOk(t) && c.cursor == t.doHook && c.checkpoint == 0 && c.buf != []
    requires Loadless(Line(q, Nil)) && Covered(t, q.choose, c, q.tokens)
    ensures var o, k := Enter(t, c, Line(q, Nil)), Classify(t, t.doHook, q.tokens);
            && (o.Crashed? <==> Stranded(k))
            && (o.Done? ==>
                  && SameInConfig(t, c.holders, o.cli.holders)
                  && if k.Command? && Moves(t, Walk(t, q.choose, StartTrail(c), q.tokens)) then
                       && Proper(t, o.cli.cursor) && o.cli.cursor != ROOT && Branch(t, o.cli.cursor) != t.config
                       && o.cli.checkpoint == |o.cli.buf| > |PathTlvs(t, o.cli.cursor, o.cli.holders)|
                     else o.cli.cursor == t.doHook)
  {
    hide Walk, Build, PathTlvs, Branch;
    if Classify(t, t.doHook, q.tokens).Command? {
      HookBuild(t, q.choose, c, q.tokens);
    }
  }

  lemma SameConfigPath(t: Tree, c: Cli, h: Holders, h': Holders)
    requires TreeOk(t) && Proper(t, c.cursor) && c.cursor != ROOT && Branch(t, c.cursor) == t.config
    requires SameInConfig(t, c.holders, h) && SameInConfig(t, h, h')
    ensures PathTlvs(t, c.cursor, c.holders) == PathTlvs(t, c.cursor, h')
  {
    PathFrameBranch(t, c.cursor, c.holders, h');
  }

  /** A `do` line that entered no mode and feeds one line: the program ends if that goes up or is a
      `do` itself, or fails in a script; otherwise all is as it was before, exactly unless the line
      fed enters a mode. */
  lemma FedLineInDo(t: Tree, c: Cli, m: Typed, q: Typed, end: Lines)
    requires TreeOk(t) && Inv(t, c) && Classify(t, c.cursor, m.tokens).Do?
        && Loadless(Line(m, OneLine(q, end))) && !end.Cons?
    requires var s := Walk(t, m.choose, StartTrail(AtDoHook(t, c)), m.tokens[1..]); Feeds(t, s) && !Moves(t, s)
    requires var d := Build(t, m.choose, AtDoHook(t, c), m.tokens[1..]).0;
             Covered(t, q.choose, d.(cursor := t.doHook), q.tokens)
    ensures var d, o := Build(t, m.choose, AtDoHook(t, c), m.tokens[1..]).0, Enter(t, c, Line(m, OneLine(q, end)));
            var k := Classify(t, t.doHook, q.tokens);
            var script := Feeding(t, Walk(t, m.choose, StartTrail(AtDoHook(t, c)), m.tokens[1..])).Script?;
            && d.cursor == t.doHook
            && (o.Crashed? <==> Stranded(k) || (script && ScriptFails(t, d, q, end)))
            && (o.Done? ==>
                  && (Inv(t, o.cli) <==> !(k.Command? && Moves(t, Walk(t, q.choose, StartTrail(d), q.tokens))))
                  && (Inv(t, o.cli) ==> o.cli.cursor == c.cursor && o.cli.buf == c.buf))
  {
    hide PathTlvs, Walk, Build, TreeOk, Branch, ScriptFails, Feed;
    DoHookKnown(t);
    var c0 := AtDoHook(t, c);
    HookBuild(t, m.choose, c0, m.tokens[1..]);
    HookFeedLitters(t, m.choose, c0, m.tokens[1..]);
    var d := Build(t, m.choose, c0, m.tokens[1..]).0;
    assert d.(cursor := t.doHook) == d;
    HookLine(t, d, q);
    FeedOnly(t, d, q, end, Feeding(t, Walk(t, m.choose, StartTrail(c0), m.tokens[1..])).Script?);
    var fed := Enter(t, d, Line(q, Nil));
    if fed.Done? && fed.cli.cursor == t.doHook {
      SameConfigPath(t, c, d.holders, fed.cli.holders);
    }
  }

  lemma StaysOffConfig(t: Tree, choose: Chooser, c: Cli, q: seq<string>)
    requires TreeOk(t) && Behind(t, c) && c.cursor != ROOT && Branch(t, c.cursor) != t.config
        && Covered(t, choose, c, q)
    ensures var r := Parse(t, choose, c, q).0;
            r.cursor != t.doHook && (r.cursor == ROOT || (Has(t, r.cursor) && Branch(t, r.cursor) != t.config))
  {
    hide Walk, Dispatch, PathTlvs;
    assert ParamOk(t, c.cursor);
    if Classify(t, c.cursor, q).Command? {
      var c0 := c.(buf := PathTlvs(t, c.cursor, c.holders));
      var s := Walk(t, choose, StartTrail(c), q);
      StartOk(t, c0);
      WalkAnyway(t, choose, c, q);
      OffConfigWalk(t, choose, StartTrail(c0), q);
      WalkEnds(t, choose, StartTrail(c), q);
      if s.status == COMPLETE {
        DispatchCases(t, c.(buf := s.tlvs, holders := s.holders), s);
        assert ParamOk(t, s.parent);
        if s.param == t.mode {
          assert OptionOk(t, s.parent, t.mode);
        }
      }
    }
  }

  /** A `do` line that entered a mode and feeds one line from there: the program ends if that comes
      to the root, or fails in a script; otherwise it is the same as for a command line. */
  lemma FedLineInDoMode(t: Tree, c: Cli, m: Typed, q: Typed, end: Lines)
    requires TreeOk(t) && Inv(t, c) && Classify(t, c.cursor, m.tokens).Do?
        && Loadless(Line(m, OneLine(q, end))) && !end.Cons?
    requires var s := Walk(t, m.choose, StartTrail(AtDoHook(t, c)), m.tokens[1..]); Feeds(t, s) && Moves(t, s)
    requires var d := Build(t, m.choose, AtDoHook(t, c), m.tokens[1..]).0;
             Has(t, d.cursor) && Covered(t, q.choose, d, q.tokens)
    ensures var d, o := Build(t, m.choose, AtDoHook(t, c), m.tokens[1..]).0, Enter(t, c, Line(m, OneLine(q, end)));
            var script := Feeding(t, Walk(t, m.choose, StartTrail(AtDoHook(t, c)), m.tokens[1..])).Script?;
            var toRoot := Parse(t, q.choose, d, q.tokens).0.cursor == ROOT;
            && (o.Crashed? <==> toRoot || (script && ScriptFails(t, d, q, end)))
            && (o.Done? ==> (Inv(t, o.cli) <==> !Spoils(t, q.choose, d, q.tokens)))
  {
    hide PathTlvs, Walk, Build, TreeOk, Branch, Spoils, ScriptFails, Feed;
    DoHookKnown(t);
    var c0 := AtDoHook(t, c);
    HookBuild(t, m.choose, c0, m.tokens[1..]);
    HookModeLitters(t, m.choose, c0, m.tokens[1..]);
    var d := Build(t, m.choose, c0, m.tokens[1..]).0;
    StaysOffConfig(t, q.choose, d, q.tokens);
    FedLine(t, q.choose, d, q.tokens);
    FeedOne(t, d, q, end, Feeding(t, Walk(t, m.choose, StartTrail(c0), m.tokens[1..])).Script?);
  }

  lemma HookModeLitters(t: Tree, choose: Chooser, c: Cli, tokens: seq<string>)
    requires TreeOk(t) && c.cursor == t.doHook && tokens != []
    requires var s := Walk(t, choose, StartTrail(c), tokens); Feeds(t, s) && Moves(t, s)
    ensures Littered(Build(t, choose, c, tokens).0)
  {
    hide Walk, PathTlvs;
    WalkEnds(t, choose, StartTrail(c), tokens);
    var s := Walk(t, choose, StartTrail(c), tokens);
    assert ParamOk(t, s.param) && ParamOk(t, Called(t, s).value);
  }
}
