/** Lines that feed lines that feed lines, to any depth. */
module CliDepth {
  import opened CliTree
  import opened CliModel
  import opened CliLaws
  import opened CliBounds
  import opened CliModes
  import opened CliNested
  import opened CliDelivery

  // ---- a script is its lines, typed

  function Played(lines: seq<Typed>, end: Lines): Lines
    decreases |lines|
  {
    if lines == [] then end else Cons(Line(lines[0], Nil), Played(lines[1..], end))
  }

  predicate AllComplete(t: Tree, c: Cli, lines: seq<Typed>)
    requires TreeOk(t) && Has(t, c.cursor)
    decreases |lines|
  {
    lines == [] ||
    (&& !Fails(t, c, lines[0])
     && var r := Parse(t, lines[0].choose, c, lines[0].tokens).0; (Has(t, r.cursor) ==> AllComplete(t, r, lines[1..])))
  }

  lemma {:induction false} FeedIsRun(t: Tree, c: Cli, lines: seq<Typed>, end: Lines, script: bool)
    requires TreeOk(t) && Sane(t, c) && AllCovered(t, c, lines) && AllLoadless(Played(lines, end)) && !end.Cons?
    ensures var o, r := Feed(t, c, Played(lines, end), script), Run(t, c, lines);
            && (o.Crashed? <==> script && (end.Aborted? || !AllComplete(t, c, lines)))
            && (o.Done? ==> r == Some(o.cli))
    decreases |lines|
  {
    hide TreeOk, Parse, Covered, EndsWith, PathTlvs, Enter;
    if lines != [] {
      var m := lines[0];
      NothingFed(t, c, Line(m, Nil));
      EveryLineKeepsSane(t, m.choose, c, m.tokens);
      FeedIsRun(t, Parse(t, m.choose, c, m.tokens).0, lines[1..], end, script);
    }
  }

  lemma {:induction false} RunIsSettled(t: Tree, c: Cli, lines: seq<Typed>)
    requires TreeOk(t) && Has(t, c.cursor) && Settle(c) == c
    ensures var r := Run(t, c, lines); r.Some? ==> Settle(r.value) == r.value
    decreases |lines|
  {
    hide TreeOk, Act;
    if lines != [] {
      var r := Parse(t, lines[0].choose, c, lines[0].tokens).0;
      assert Settle(r) == r;
      if Has(t, r.cursor) {
        RunIsSettled(t, r, lines[1..]);
      }
    }
  }

  /** `run ut` does what typing the lines of the script would do, and so does `repeat` with its line;
      the script ends the program if and only if one of its lines is not complete or its runner fails. */
  lemma ScriptIsTyping(t: Tree, c: Cli, m: Typed, lines: seq<Typed>, end: Lines)
    requires TreeOk(t) && Sane(t, c) && Settle(c) == c && AllCovered(t, c, lines) && !end.Cons?
    requires Loadless(Line(m, Played(lines, end)))
    requires var k := Classify(t, c.cursor, m.tokens); k.Repeat? || k.RunUt?
    ensures var k, o := Classify(t, c.cursor, m.tokens), Enter(t, c, Line(m, Played(lines, end)));
            && (o.Crashed? <==> k.RunUt? && (end.Aborted? || !AllComplete(t, c, lines)))
            && (o.Done? ==> Run(t, c, lines) == Some(o.cli))
  {
    hide TreeOk, PathTlvs, Feed, Run, AllCovered, AllComplete;
    FeedIsRun(t, c, lines, end, Classify(t, c.cursor, m.tokens).RunUt?);
    RunIsSettled(t, c, lines);
  }

  /** At the do hook, where there is no parent to go to, `cd`, `cd..` and `do` end the program. */
  lemma GoingUpFromTheHook(t: Tree, c: Cli, l: Line)
    requires TreeOk(t) && c.cursor == t.doHook && Loadless(l)
    requires var tokens := l.typed.tokens;
             tokens == ["cd"] || tokens == ["cd.."] || (|tokens| > 1 && tokens[0] == "do")
    ensures Has(t, t.doHook) && Enter(t, c, l).Crashed?
  {
    hide Classify;
    DoHookKnown(t);
    Keywords(t, t.doHook);
    var tokens := l.typed.tokens;
    assert |tokens| > 1 ==> tokens == [tokens[0]] + tokens[1..];
  }

  // ---- what never runs out

  /** There is at least one TLV in front of the checkpoint for every leaf on the path to the cursor. */
  ghost predicate Roomy(t: Tree, c: Cli) {
    && c.checkpoint <= |c.buf|
    && (AtHook(t, c) || (Proper(t, c.cursor) && |PathTlvs(t, c.cursor, c.holders)| <= c.checkpoint))
  }

  lemma SaneIsRoomy(t: Tree, c: Cli)
    requires Sane(t, c)
    ensures Roomy(t, c)
  {}

  lemma {:induction false} PathLength(t: Tree, p: nat, h: Holders, h': Holders)
    requires Has(t, p)
    ensures |PathTlvs(t, p, h)| == |PathTlvs(t, p, h')|
    decreases p
  {
    if p != ROOT && t.params[p].parent < p {
      PathLength(t, t.params[p].parent, h, h');
    }
  }

  lemma BuildKeepsRoom(t: Tree, choose: Chooser, c: Cli, tokens: seq<string>)
    requires TreeOk(t) && Roomy(t, c) && tokens != []
    ensures var d := Build(t, choose, c, tokens).0; Roomy(t, d) && (Proper(t, c.cursor) ==> Proper(t, d.cursor))
  {
    hide Walk, Dispatch, PathTlvs;
    if c.cursor == t.doHook {
      HookBuild(t, choose, c, tokens);
    } else {
      WalkEnds(t, choose, StartTrail(c), tokens);
      WalkAnyway(t, choose, c, tokens);
      var s, d := Walk(t, choose, StartTrail(c), tokens), Build(t, choose, c, tokens).0;
      PathLength(t, c.cursor, c.holders, d.holders);
      ConfigPath(t, d.holders);
      if s.status == COMPLETE {
        DispatchCases(t, c.(buf := s.tlvs, holders := s.holders), s);
        assert ParamOk(t, s.parent);
        if s.param == t.mode {
          assert OptionOk(t, s.parent, t.mode);
        }
      }
    }
  }

  lemma SettleKeepsRoom(t: Tree, c: Cli)
    requires TreeOk(t) && Roomy(t, c)
    ensures var r := Settle(c); Roomy(t, r) && r.cursor == c.cursor && r.checkpoint == |r.buf|
  {}

  /** `cd..` from a leaf finds a TLV to drop, and leaves room again. */
  lemma GoUpKeepsRoom(t: Tree, c: Cli)
    requires TreeOk(t) && Roomy(t, c) && c.cursor != t.doHook
    ensures Roomy(t, GoUp(t, c)) && Proper(t, GoUp(t, c).cursor)
    ensures t.params[c.cursor].kind.Leaf? && c.cursor != ROOT ==> c.buf != []
  {
    assert ParamOk(t, c.cursor);
    if c.cursor != ROOT {
      PathLength(t, t.params[c.cursor].parent, c.holders, GoUp(t, c).holders);
    }
  }

  /** Whatever lines feed which lines, and whatever they break: as long as the program goes on, there
      stays a TLV for every leaf, so no `cd..` rewinds the buffer beyond its beginning. */
  lemma {:induction false} EveryNestedLineKeepsRoom(t: Tree, c: Cli, l: Line)
    requires TreeOk(t) && Roomy(t, c) && Has(t, c.cursor) && Loadless(l)
    ensures var o := Enter(t, c, l);
            o.Done? ==>
              && Roomy(t, o.cli) && (Proper(t, c.cursor) ==> Proper(t, o.cli.cursor))
              && (l.typed.tokens != [] ==> o.cli.checkpoint == |o.cli.buf|)
    decreases l
  {
    hide PathTlvs, Walk, Build, TreeOk, GoUp, GoTop, Branch, Roomy, Settle;
    var choose, tokens, o := l.typed.choose, l.typed.tokens, Enter(t, c, l);
    if o.Done? {
      match Classify(t, c.cursor, tokens)
      case Empty =>
      case Repeat =>
        FedLinesKeepRoom(t, c, l.fed, false);
        SettleKeepsRoom(t, Feed(t, c, l.fed, false).cli);
      case RunUt =>
        FedLinesKeepRoom(t, c, l.fed, true);
        SettleKeepsRoom(t, Feed(t, c, l.fed, true).cli);
      case Command =>
        var s, d := Walk(t, choose, StartTrail(c), tokens), Build(t, choose, c, tokens).0;
        BuildKeepsRoom(t, choose, c, tokens);
        RoomyKnown(t, d);
        if Feeds(t, s) {
          FedLinesKeepRoom(t, d, l.fed, Feeding(t, s).Script?);
          SettleKeepsRoom(t, Feed(t, d, l.fed, Feeding(t, s).Script?).cli);
        } else {
          SettleKeepsRoom(t, d);
        }
      case Do => DoKeepsRoom(t, c, l);
      case Up =>
        GoUpKeepsRoom(t, c);
        SettleKeepsRoom(t, GoUp(t, c));
      case Top =>
        TopHasRoom(t, c);
        SettleKeepsRoom(t, GoTop(t, c));
      case _ => SettleKeepsRoom(t, c);
    }
  }

  lemma RoomyKnown(t: Tree, c: Cli)
    requires TreeOk(t) && Roomy(t, c)
    ensures Has(t, c.cursor) && (c.cursor == t.doHook <==> !Proper(t, c.cursor))
  {}

  lemma TopHasRoom(t: Tree, c: Cli)
    requires TreeOk(t) && Roomy(t, c) && c.cursor != t.doHook
    ensures Roomy(t, GoTop(t, c)) && Proper(t, GoTop(t, c).cursor)
  {}

  lemma HookHasRoom(t: Tree, c: Cli)
    requires TreeOk(t)
    ensures Roomy(t, AtDoHook(t, c)) && Has(t, t.doHook)
  {}

  lemma DoKeepsRoom(t: Tree, c: Cli, l: Line)
    requires TreeOk(t) && Roomy(t, c) && Has(t, c.cursor) && Loadless(l)
    requires Classify(t, c.cursor, l.typed.tokens).Do? && Enter(t, c, l).Done?
    ensures var r := Enter(t, c, l).cli; Roomy(t, r) && Proper(t, r.cursor) && r.checkpoint == |r.buf|
    decreases l, 0
  {
    hide PathTlvs, Walk, Build, TreeOk, Settle, Branch, Roomy;
    var q, c0 := l.typed.tokens[1..], AtDoHook(t, c);
    HookHasRoom(t, c);
    var s, d := Walk(t, l.typed.choose, StartTrail(c0), q), Build(t, l.typed.choose, c0, q).0;
    BuildKeepsRoom(t, l.typed.choose, c0, q);
    RoomyKnown(t, d);
    if Feeds(t, s) {
      FedLinesKeepRoom(t, d, l.fed, Feeding(t, s).Script?);
    }
    var o := if Feeds(t, s) then Feed(t, d, l.fed, Feeding(t, s).Script?) else Done(d);
    RoomyKnown(t, c);
    RoomyKnown(t, o.cli);
    var r := AfterDo(t, c, o).cli;
    if o.cli.cursor == t.doHook {
      RebuiltHasRoom(t, r);
    }
    SettleKeepsRoom(t, r);
  }

  lemma RebuiltHasRoom(t: Tree, c: Cli)
    requires Proper(t, c.cursor) && c.buf == PathTlvs(t, c.cursor, c.holders) && c.checkpoint == |c.buf|
    ensures Roomy(t, c)
  {}

  lemma {:induction false} FedLinesKeepRoom(t: Tree, c: Cli, ls: Lines, script: bool)
    requires TreeOk(t) && Roomy(t, c) && Has(t, c.cursor) && AllLoadless(ls)
    ensures var o := Feed(t, c, ls, script);
            o.Done? ==> Roomy(t, o.cli) && (Proper(t, c.cursor) ==> Proper(t, o.cli.cursor))
    decreases ls
  {
    hide PathTlvs, Enter, TreeOk, Roomy, Fails;
    if ls.Cons? && Feed(t, c, ls, script).Done? {
      EveryNestedLineKeepsRoom(t, c, ls.head);
      var c' := Enter(t, c, ls.head).cli;
      RoomyKnown(t, c');
      FedLinesKeepRoom(t, c', ls.tail, script);
    }
  }

  // ---- lines that spoil nothing

  predicate AtHook(t: Tree, c: Cli) {
    c.cursor == t.doHook && c.checkpoint == 0
  }

  /** The fed lines of a `do` that entered a mode end in one, and not in the config branch. */
  predicate EndsInMode(t: Tree, o: Outcome) {
    o.Done? ==> Has(t, o.cli.cursor) && o.cli.cursor != ROOT && Branch(t, o.cli.cursor) != t.config
  }

  /** Nowhere inside the line does one run the handler of `config` behind its command code, enter a
      mode or go up from a leaf behind another line's code, get stranded, or fail in a script. */
  ghost predicate Tame(t: Tree, c: Cli, l: Line)
    requires TreeOk(t) && Has(t, c.cursor) && Loadless(l)
    decreases l
  {
    var choose, tokens := l.typed.choose, l.typed.tokens;
    var k := Classify(t, c.cursor, tokens);
    && !(c.cursor == t.doHook && Stranded(k))
    && match k
       case Repeat => TameAll(t, c, l.fed, false)
       case RunUt => TameAll(t, c, l.fed, true)
       case Command =>
         var s, d := Walk(t, choose, StartTrail(c), tokens), Build(t, choose, c, tokens).0;
         && !RemarksConfig(t, s) && (c.cursor == t.doHook || Littered(c) ==> !Moves(t, s))
         && (Feeds(t, s) ==> TameAll(t, d, l.fed, Feeding(t, s).Script?))
       case Do =>
         var c0 := AtDoHook(t, c);
         var s, d := Walk(t, choose, StartTrail(c0), tokens[1..]), Build(t, choose, c0, tokens[1..]).0;
         var script := Feeding(t, s).Script?;
         Feeds(t, s) ==>
           TameAll(t, d, l.fed, script) && (Moves(t, s) ==> EndsInMode(t, Feed(t, d, l.fed, script)))
       case Up => !(Littered(c) && t.params[c.cursor].kind.Leaf? && t.params[c.cursor].parent != ROOT)
       case _ => true
  }

  ghost predicate TameAll(t: Tree, c: Cli, ls: Lines, script: bool)
    requires TreeOk(t) && AllLoadless(ls)
    decreases ls
  {
    match ls
    case Nil => true
    case Aborted => !script
    case Cons(l, rest) =>
      && Has(t, c.cursor) && Tame(t, c, l) && !(script && Fails(t, c, l.typed))
      && var o := Enter(t, c, l); (o.Done? ==> TameAll(t, o.cli, rest, script))
  }

  lemma CloseKeeps(t: Tree, c: Cli)
    requires TreeOk(t) && (Behind(t, c) || AtHook(t, c))
    ensures Behind(t, c) ==> Inv(t, Settle(c))
    ensures AtHook(t, c) ==> AtHook(t, Settle(c))
  {
    hide PathTlvs;
    DoHookKnown(t);
    if Behind(t, c) {
      SettledBehind(t, c);
    }
  }

  lemma UpKeeps(t: Tree, c: Cli)
    requires TreeOk(t) && Behind(t, c)
        && !(Littered(c) && t.params[c.cursor].kind.Leaf? && t.params[c.cursor].parent != ROOT)
    ensures Inv(t, Settle(GoUp(t, c)))
  {
    hide PathTlvs, GoUp;
    if Littered(c) {
      UpFromLitter(t, c);
    } else {
      InvIsBehind(t, c);
      GoUpKeepsInv(t, c);
    }
  }

  /** Such a line keeps the invariant however deep lines are nested in it, and the program goes on. */
  lemma {:induction false} TameLineKeepsInv(t: Tree, c: Cli, l: Line)
    requires TreeOk(t) && (Behind(t, c) || AtHook(t, c)) && Has(t, c.cursor) && Loadless(l) && Tame(t, c, l)
    ensures var o := Enter(t, c, l);
            && o.Done?
            && (Behind(t, c) ==> Behind(t, o.cli) && (!Littered(c) || l.typed.tokens != [] ==> Inv(t, o.cli)))
            && (AtHook(t, c) ==> AtHook(t, o.cli))
    decreases l
  {
    hide PathTlvs, Walk, Build, TreeOk, GoUp, GoTop, Branch, Behind, AtHook, Settle;
    match Classify(t, c.cursor, l.typed.tokens)
    case Empty => InvIsBehind(t, c);
    case Repeat =>
      TameLinesKeepInv(t, c, l.fed, false);
      CloseFed(t, c, Feed(t, c, l.fed, false).cli);
    case RunUt =>
      TameLinesKeepInv(t, c, l.fed, true);
      CloseFed(t, c, Feed(t, c, l.fed, true).cli);
    case Command => TameCommand(t, c, l);
    case Do => TameDo(t, c, l);
    case Up =>
      NotAtHook(t, c);
      UpKeeps(t, c);
      InvIsBehind(t, Settle(GoUp(t, c)));
    case Top =>
      NotAtHook(t, c);
      TopKeeps(t, c);
    case _ =>
      CloseFed(t, c, c);
  }

  lemma {:induction false} TameLinesKeepInv(t: Tree, c: Cli, ls: Lines, script: bool)
    requires TreeOk(t) && (Behind(t, c) || AtHook(t, c)) && Has(t, c.cursor) && AllLoadless(ls)
        && TameAll(t, c, ls, script)
    ensures var o := Feed(t, c, ls, script);
            o.Done? && (Behind(t, c) ==> Behind(t, o.cli)) && (AtHook(t, c) ==> AtHook(t, o.cli))
    decreases ls
  {
    hide PathTlvs, Enter, Tame, TreeOk, Behind, AtHook, Fails;
    if ls.Cons? {
      TameLineKeepsInv(t, c, ls.head);
      var c' := Enter(t, c, ls.head).cli;
      BothKnown(t, c');
      TameLinesKeepInv(t, c', ls.tail, script);
    }
  }

  lemma BothKnown(t: Tree, c: Cli)
    requires TreeOk(t) && (Behind(t, c) || AtHook(t, c))
    ensures Has(t, c.cursor) && (AtHook(t, c) <==> c.cursor == t.doHook) && (Behind(t, c) <==> c.cursor != t.doHook)
  {
    DoHookKnown(t);
  }

  lemma NotAtHook(t: Tree, c: Cli)
    requires TreeOk(t) && (Behind(t, c) || AtHook(t, c)) && c.cursor != t.doHook
    ensures Behind(t, c) && !AtHook(t, c)
  {}

  lemma CloseFed(t: Tree, c: Cli, d: Cli)
    requires TreeOk(t) && (Behind(t, c) || AtHook(t, c))
    requires (Behind(t, c) ==> Behind(t, d)) && (AtHook(t, c) ==> AtHook(t, d))
    ensures Behind(t, c) ==> Behind(t, Settle(d)) && Inv(t, Settle(d))
    ensures AtHook(t, c) ==> AtHook(t, Settle(d))
  {
    hide PathTlvs;
    BothKnown(t, c);
    CloseKeeps(t, d);
    InvIsBehind(t, Settle(d));
  }

  lemma TopKeeps(t: Tree, c: Cli)
    requires TreeOk(t) && Behind(t, c)
    ensures Behind(t, Settle(GoTop(t, c))) && Inv(t, Settle(GoTop(t, c)))
  {
    TopAnyway(t, c);
  }

  lemma TameCommand(t: Tree, c: Cli, l: Line)
    requires TreeOk(t) && (Behind(t, c) || AtHook(t, c)) && Has(t, c.cursor) && Loadless(l) && Tame(t, c, l)
    requires Classify(t, c.cursor, l.typed.tokens).Command?
    ensures var o := Enter(t, c, l);
            o.Done? && (Behind(t, c) ==> Behind(t, o.cli) && Inv(t, o.cli)) && (AtHook(t, c) ==> AtHook(t, o.cli))
    decreases l, 0
  {
    hide PathTlvs, Walk, Build, TreeOk, Settle, Branch;
    var choose, tokens := l.typed.choose, l.typed.tokens;
    var s, d := Walk(t, choose, StartTrail(c), tokens), Build(t, choose, c, tokens).0;
    BothKnown(t, c);
    if c.cursor == t.doHook {
      HookBuild(t, choose, c, tokens);
      CloseFed(t, c, d);
    } else {
      BuildAnyway(t, choose, c, tokens);
      if Feeds(t, s) {
        FeedingLitters(t, choose, c, tokens);
      } else {
        SettleAnyway(t, choose, c, tokens);
      }
    }
    if Feeds(t, s) {
      TameLinesKeepInv(t, d, l.fed, Feeding(t, s).Script?);
      CloseFed(t, d, Feed(t, d, l.fed, Feeding(t, s).Script?).cli);
    }
  }

  lemma SettleAnyway(t: Tree, choose: Chooser, c: Cli, tokens: seq<string>)
    requires TreeOk(t) && Behind(t, c) && tokens != []
    requires var s := Walk(t, choose, StartTrail(c), tokens);
             !Feeds(t, s) && !RemarksConfig(t, s) && (Littered(c) ==> !Moves(t, s))
    ensures var d := Build(t, choose, c, tokens).0; Behind(t, Settle(d)) && Inv(t, Settle(d))
  {
    hide PathTlvs, Walk, Build;
    BuildAnyway(t, choose, c, tokens);
    var d := Build(t, choose, c, tokens).0;
    if d.cursor == ROOT {
      ConfigPath(t, d.holders);
    } else {
      SettledBehind(t, d);
    }
    InvIsBehind(t, Settle(d));
  }

  lemma TameDo(t: Tree, c: Cli, l: Line)
    requires TreeOk(t) && (Behind(t, c) || AtHook(t, c)) && Has(t, c.cursor) && Loadless(l) && Tame(t, c, l)
    requires Classify(t, c.cursor, l.typed.tokens).Do?
    ensures var o := Enter(t, c, l);
            o.Done? && Behind(t, c) && Behind(t, o.cli) && Inv(t, o.cli) && !AtHook(t, c)
    decreases l, 0
  {
    hide PathTlvs, Walk, Build, TreeOk, Settle, Branch;
    BothKnown(t, c);
    DoHookKnown(t);
    var q, choose, c0 := l.typed.tokens[1..], l.typed.choose, AtDoHook(t, c);
    var s, d := Walk(t, choose, StartTrail(c0), q), Build(t, choose, c0, q).0;
    HookBuild(t, choose, c0, q);
    BothKnown(t, d);
    var o := if Feeds(t, s) then Feed(t, d, l.fed, Feeding(t, s).Script?) else Done(d);
    if Feeds(t, s) {
      TameLinesKeepInv(t, d, l.fed, Feeding(t, s).Script?);
    }
    BothKnown(t, o.cli);
    var r := AfterDo(t, c, o).cli;
    assert Behind(t, r);
    CloseFed(t, r, r);
  }
}
