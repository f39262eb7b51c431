/** A small command tree: the assumptions on trees can be met, and the lines that break what the
    command line is for, or end the program, can be typed in it. */
module CliSample {
  import opened CliTree
  import opened CliModel
  import opened CliLaws
  import opened CliModes
  import opened CliNested
  import opened Sequences

  function Command(kind: Kind, name: string, parent: nat, options: seq<nat>, code: int): Param {
    Param(kind, name, INVALID, parent, options, true, false, Plain, code, _ => true)
  }

  const CONFIG: nat := 2
  const SLASH: nat := 4
  const SAVE: nat := 8
  const NO: nat := 9
  const NOW: nat := 10

  const SHOW: nat := 11
  const HISTORY: nat := 12

  /** The root with `config` and `show` below it, `config` with `save` and `no` below it, `save` with
      `now` below it, `show`, also below the do hook, with `history`, and the capability parameters. */
  function Sample(): Tree {
    Tree([Command(Cmd, "ROOT", 0, [SLASH, 5, 6, CONFIG, SHOW], 0), Command(Cmd, "DO_HOOK", 0, [5, 5, 6, SHOW], 0),
          Command(Cmd, "config", 0, [SLASH, 5, 6, SAVE, NO], 0), Command(Cmd, "repeat", 0, [], 0),
          Command(Cmd, "/", 0, [], 0), Command(Cmd, "?", 0, [], 0), Command(Cmd, ".", 0, [], 0),
          Command(Cmd, "brief", 0, [], 0),
          Command(Cmd, "save", CONFIG, [SLASH, 5, 6, NOW], 7), Command(NoCmd, "no", CONFIG, [5, 5, 6, SAVE], 0),
          Command(Cmd, "now", SAVE, [SLASH, 5, 6], 8),
          Command(Cmd, "show", 0, [SLASH, 5, 6, HISTORY], 0).(hasCallback := false),
          Command(Cmd, "history", SHOW, [SLASH, 5, 6], 9).(feeds := Menu)],
         1, CONFIG, 3, SLASH, 5, 6, 7)
  }

  lemma SampleOptionOk(p: nat, o: nat)
    requires p < 13 && o in Sample().params[p].options
    ensures OptionOk(Sample(), p, o)
  {}

  lemma SampleParamOk(p: nat)
    requires p < 13
    ensures ParamOk(Sample(), p)
  {
    hide Abbreviated, OptionOk;
    var t := Sample();
    forall o | o in t.params[p].options ensures Has(t, o) && OptionOk(t, p, o) {
      SampleOptionOk(p, o);
      assert Has(t, o);
    }
    forall token: string | token != ""
      ensures |Abbreviated(t, t.params[p].options, token)| < POSSIBILITY_ARRAY_SIZE
    {
      FewAbbreviated(t, t.params[p].options, token);
    }
  }

  lemma SampleOk()
    ensures TreeOk(Sample())
  {
    hide ParamOk;
    forall p: nat | p < |Sample().params|
      ensures ParamOk(Sample(), p)
    {
      SampleParamOk(p);
    }
  }

  const FRESH := Cli(ROOT, [], 0, map[], [])

  lemma {:induction false} FirstNamed(t: Tree, opts: seq<nat>, i: nat, token: string)
    requires (forall o | o in opts :: Has(t, o)) && i < |opts| && Named(t, opts[i], token)
    requires forall j | 0 <= j < i :: Has(t, opts[j]) && t.params[opts[j]].name != token
    ensures FirstExact(t, opts, token) == Some(opts[i])
  {
    assert opts[0] in opts;
    if i > 0 {
      FirstNamed(t, opts[1..], i - 1, token);
    }
  }

  /** Naming the `i`-th option in full leads to it. */
  lemma Step(choose: Chooser, s: Trail, token: string, i: nat)
    requires TreeOk(Sample()) && Has(Sample(), s.param) && s.status == COMPLETE
        && i < |Sample().params[s.param].options|
    requires var t := Sample(); var opts := t.params[s.param].options;
             && (forall o | o in opts :: Has(t, o)) && Named(t, opts[i], token)
             && forall j | 0 <= j < i :: Has(t, opts[j]) && t.params[opts[j]].name != token
    ensures var t := Sample();
            var o := t.params[s.param].options[i];
            var disabled := s.disabled || t.params[o].kind.NoCmd?;
            WalkStep(t, choose, s, token) == s.(param := o, parent := s.param, disabled := disabled)
  {
    hide TreeOk, Sample;
    FirstNamed(Sample(), Sample().params[s.param].options, i, token);
  }

  function At(c: Cli, param: nat, parent: nat, disabled: bool): Trail {
    Trail(param, parent, c.buf, c.holders, disabled, COMPLETE)
  }

  /** The steps the lines below take. */
  lemma Steps(choose: Chooser, c: Cli, disabled: bool)
    requires TreeOk(Sample())
    ensures var t := Sample();
            && WalkStep(t, choose, At(c, ROOT, ROOT, disabled), "config") == At(c, CONFIG, ROOT, disabled)
            && WalkStep(t, choose, At(c, CONFIG, ROOT, disabled), "/") == At(c, SLASH, CONFIG, disabled)
            && WalkStep(t, choose, At(c, CONFIG, ROOT, disabled), "save") == At(c, SAVE, CONFIG, disabled)
            && WalkStep(t, choose, At(c, CONFIG, CONFIG, disabled), "save") == At(c, SAVE, CONFIG, disabled)
            && WalkStep(t, choose, At(c, CONFIG, ROOT, disabled), "no") == At(c, NO, CONFIG, true)
  {
    hide TreeOk, WalkStep;
    Step(choose, At(c, ROOT, ROOT, disabled), "config", 3);
    Step(choose, At(c, CONFIG, ROOT, disabled), "/", 0);
    Step(choose, At(c, CONFIG, ROOT, disabled), "save", 3);
    Step(choose, At(c, CONFIG, CONFIG, disabled), "save", 3);
    Step(choose, At(c, CONFIG, ROOT, disabled), "no", 4);
  }

  lemma NoSteps(choose: Chooser, c: Cli, disabled: bool)
    requires TreeOk(Sample())
    ensures var t := Sample();
            && WalkStep(t, choose, At(c, NO, CONFIG, disabled), "save") == At(c, SAVE, NO, disabled)
            && WalkStep(t, choose, At(c, SAVE, NO, disabled), "/") == At(c, SLASH, SAVE, disabled)
            && WalkStep(t, choose, At(c, SAVE, NO, disabled), "now") == At(c, NOW, SAVE, disabled)
            && WalkStep(t, choose, At(c, SAVE, SAVE, disabled), "now") == At(c, NOW, SAVE, disabled)
  {
    hide TreeOk, WalkStep;
    Step(choose, At(c, NO, CONFIG, disabled), "save", 3);
    Step(choose, At(c, SAVE, NO, disabled), "/", 0);
    Step(choose, At(c, SAVE, NO, disabled), "now", 3);
    Step(choose, At(c, SAVE, SAVE, disabled), "now", 3);
  }

  lemma HistorySteps(choose: Chooser, c: Cli)
    requires TreeOk(Sample())
    ensures var t := Sample();
            && WalkStep(t, choose, At(c, ROOT, ROOT, false), "show") == At(c, SHOW, ROOT, false)
            && WalkStep(t, choose, At(c, 1, 1, false), "show") == At(c, SHOW, 1, false)
            && forall p: nat | p < 2 ::
                 WalkStep(t, choose, At(c, SHOW, p, false), "history") == At(c, HISTORY, SHOW, false)
  {
    hide TreeOk, WalkStep;
    Step(choose, At(c, ROOT, ROOT, false), "show", 4);
    Step(choose, At(c, 1, 1, false), "show", 3);
    forall p: nat | p < 2
      ensures WalkStep(Sample(), choose, At(c, SHOW, p, false), "history") == At(c, HISTORY, SHOW, false)
    {
      Step(choose, At(c, SHOW, p, false), "history", 3);
    }
  }

  lemma OneToken(choose: Chooser, s: Trail, a: string)
    requires TreeOk(Sample()) && Has(Sample(), s.param) && s.status == COMPLETE
    ensures Walk(Sample(), choose, s, [a]) == WalkStep(Sample(), choose, s, a)
  {
    hide TreeOk, WalkStep;
    assert [a][1..] == [];
  }

  lemma FirstToken(choose: Chooser, s: Trail, a: string, rest: seq<string>)
    requires TreeOk(Sample()) && Has(Sample(), s.param) && s.status == COMPLETE
    ensures Walk(Sample(), choose, s, [a] + rest) == Walk(Sample(), choose, WalkStep(Sample(), choose, s, a), rest)
  {
    hide TreeOk, WalkStep;
    assert ([a] + rest)[1..] == rest;
  }

  /** The trail of `config`, then `token`. */
  lemma TwoSteps(choose: Chooser, c: Cli, token: string, p: nat)
    requires TreeOk(Sample()) && c.cursor == ROOT && (p == SLASH || p == SAVE) && token == Sample().params[p].name
    ensures Walk(Sample(), choose, StartTrail(c), ["config", token]) == At(c, p, CONFIG, false)
  {
    hide TreeOk, WalkStep, Walk;
    Steps(choose, c, false);
    assert ["config", token] == ["config"] + [token];
    FirstToken(choose, StartTrail(c), "config", [token]);
    OneToken(choose, At(c, CONFIG, ROOT, false), token);
  }

  lemma OneStep(choose: Chooser, c: Cli)
    requires TreeOk(Sample()) && c.cursor == CONFIG
    ensures Walk(Sample(), choose, StartTrail(c), ["save"]) == At(c, SAVE, CONFIG, false)
  {
    hide TreeOk, WalkStep, Walk;
    Steps(choose, c, false);
    OneToken(choose, StartTrail(c), "save");
  }

  /** The trail of `config no save`, then `token`. */
  lemma FourSteps(choose: Chooser, c: Cli, token: string, p: nat)
    requires TreeOk(Sample()) && c.cursor == ROOT && (p == SLASH || p == NOW) && token == Sample().params[p].name
    ensures Walk(Sample(), choose, StartTrail(c), ["config", "no", "save", token]) == At(c, p, SAVE, true)
  {
    hide TreeOk, WalkStep, Walk;
    Steps(choose, c, false);
    NoSteps(choose, c, true);
    assert ["config", "no", "save", token] == ["config"] + (["no"] + (["save"] + [token]));
    FirstToken(choose, StartTrail(c), "config", ["no"] + (["save"] + [token]));
    FirstToken(choose, At(c, CONFIG, ROOT, false), "no", ["save"] + [token]);
    FirstToken(choose, At(c, NO, CONFIG, true), "save", [token]);
    OneToken(choose, At(c, SAVE, NO, true), token);
  }

  lemma Lines()
    ensures Classify(Sample(), ROOT, ["config", "/"]).Command? && Classify(Sample(), ROOT, ["config", "save"]).Command?
    ensures Classify(Sample(), CONFIG, ["save"]).Command? && Classify(Sample(), SAVE, ["now"]).Command?
    ensures forall p | p == "/" || p == "now" :: Classify(Sample(), ROOT, ["config", "no", "save", p]).Command?
  {
    assert "config"[0] == 'c' && "config"[1] == 'o' && "save"[0] == 's' && "now"[0] == 'n' && "do"[0] == 'd'
        && "repeat"[0] == 'r';
    assert "cd"[1] == 'd' && "cd.."[1] == 'd' && "cls"[1] == 'l' && "cls"[0] == 'c' && "cd"[0] == 'c'
        && "cd.."[0] == 'c';
  }

  lemma SendsSave(s: Trail)
    requires s.param == SAVE && s.parent == CONFIG && !s.disabled
    ensures Sent(Sample(), s) == [Handler(SAVE, s.tlvs + [CodeTlv(Sample(), SAVE)], CONFIG_ENABLE)]
  {
    hide CodeTlv;
    assert Branch(Sample(), SAVE) == CONFIG;
  }

  lemma SlashAtConfig(choose: Chooser)
    requires TreeOk(Sample())
    ensures var broken := Parsed(Sample(), choose, FRESH, ["config", "/"]);
            broken.cursor == CONFIG && broken.buf == [CodeTlv(Sample(), CONFIG)]
  {
    hide TreeOk, Walk, Classify, CodeTlv;
    Lines();
    TwoSteps(choose, FRESH, "/", SLASH);
  }

  /** `config /` typed at the root leaves the command code of `config` behind the checkpoint: the
      buffer is no longer the path to the cursor, and `save` typed in that mode reaches its handler
      with one TLV more than `config save` typed at the root. */
  lemma ConfigSlashBreaksTheMode(choose: Chooser)
    ensures TreeOk(Sample()) && Inv(Sample(), FRESH)
    ensures var t, broken := Sample(), Parsed(Sample(), choose, FRESH, ["config", "/"]);
            && broken.cursor == CONFIG && broken.buf == [CodeTlv(t, CONFIG)] && !Inv(t, broken)
            && var inMode, typed := Parsed(t, choose, broken, ["save"]), Parsed(t, choose, FRESH, ["config", "save"]);
               && broken.log <= inMode.log && FRESH.log <= typed.log
               && Delivered(broken, inMode) == [Handler(SAVE, [CodeTlv(t, CONFIG), CodeTlv(t, SAVE)], CONFIG_ENABLE)]
               && Delivered(FRESH, typed) == [Handler(SAVE, [CodeTlv(t, SAVE)], CONFIG_ENABLE)]
  {
    hide TreeOk, Walk, Classify, CodeTlv, Sent, Parsed;
    SampleOk();
    Lines();
    var t, broken := Sample(), Parsed(Sample(), choose, FRESH, ["config", "/"]);
    SlashAtConfig(choose);
    OneStep(choose, broken);
    CommandSends(t, choose, broken, ["save"]);
    SendsSave(Walk(t, choose, StartTrail(broken), ["save"]));
    TwoSteps(choose, FRESH, "save", SAVE);
    CommandSends(t, choose, FRESH, ["config", "save"]);
    SendsSave(Walk(t, choose, StartTrail(FRESH), ["config", "save"]));
    var save := [CodeTlv(t, SAVE)];
    assert broken.buf + save == [CodeTlv(t, CONFIG), CodeTlv(t, SAVE)] && FRESH.buf + save == save;
  }

  lemma EntersSave(choose: Chooser)
    requires TreeOk(Sample())
    ensures Inv(Sample(), FRESH) && EntersAll(Sample(), choose, FRESH, [["config", "no", "save"]],
        [["config", "no", "save", "/"]])
    ensures var c1 := AfterAll(Sample(), choose, FRESH, [["config", "no", "save"]], [["config", "no", "save", "/"]]);
            c1.cursor == SAVE && c1.buf == [] && c1.holders == map[]
  {
    hide TreeOk, Walk, Classify;
    var t, p, m := Sample(), ["config", "no", "save"], ["config", "no", "save", "/"];
    Lines();
    FourSteps(choose, FRESH, "/", SLASH);
    assert p + ["/"] == m;
    assert Enters(t, choose, FRESH, p, m);
    ModeEntered(t, choose, FRESH, p, m);
    BeforeSlash(t, choose, StartTrail(FRESH), p, "/");
    assert [p][1..] == [] && [m][1..] == [];
    var c1 := Parsed(t, choose, FRESH, m);
    assert EntersAll(t, choose, c1, [], []) && AfterAll(t, choose, c1, [], []) == c1;
  }

  lemma NowIsTold(c: Cli, disabled: bool)
    ensures TellsMode(Sample(), At(c, NOW, SAVE, disabled)) && !Feeds(Sample(), At(c, NOW, SAVE, disabled))
  {
    assert Branch(Sample(), SAVE) == CONFIG && Branch(Sample(), NOW) == CONFIG;
  }

  /** What `now` is in that mode, and typed in full. */
  lemma NowTrails(choose: Chooser)
    requires TreeOk(Sample()) && Inv(Sample(), FRESH)
    requires EntersAll(Sample(), choose, FRESH, [["config", "no", "save"]], [["config", "no", "save", "/"]])
    ensures var t, ps, ms := Sample(), [["config", "no", "save"]], [["config", "no", "save", "/"]];
            && AfterAll(t, choose, FRESH, ps, ms).cursor == SAVE
            && TrailInMode(t, choose, FRESH, ps, ms, ["now"]) == At(FRESH, NOW, SAVE, false)
            && Flatten(ps) + ["now"] == ["config", "no", "save", "now"]
            && Walk(t, choose, StartTrail(FRESH), Flatten(ps) + ["now"]) == At(FRESH, NOW, SAVE, true)
  {
    hide TreeOk, Walk, Classify, EntersAll, AfterAll, WalkStep, Sample, Inv;
    EntersSave(choose);
    var p, ps, ms := ["config", "no", "save"], [["config", "no", "save"]], [["config", "no", "save", "/"]];
    var c1 := AfterAll(Sample(), choose, FRESH, ps, ms);
    assert ps[1..] == [] && Flatten(ps[1..]) == [];
    assert Flatten(ps) == p && p + ["now"] == ["config", "no", "save", "now"];
    NamedNow();
    FourSteps(choose, FRESH, "now", NOW);
    NoSteps(choose, c1, false);
    OneToken(choose, StartTrail(c1), "now");
  }

  lemma NamedNow()
    ensures Has(Sample(), NOW) && Has(Sample(), SAVE) && Sample().params[NOW].name == "now"
  {}

  /** `config no save /` and then `now` tells the handler to enable what `config no save now` tells
      it to disable. */
  lemma NegationIsLost(choose: Chooser)
    ensures TreeOk(Sample()) && Inv(Sample(), FRESH)
    ensures var ps, ms := [["config", "no", "save"]], [["config", "no", "save", "/"]];
            && EntersAll(Sample(), choose, FRESH, ps, ms) && BothCommands(Sample(), choose, FRESH, ps, ms, ["now"])
            && NegationLost(Sample(), choose, FRESH, ps, ms, ["now"])
  {
    hide TreeOk, Walk, Classify, EntersAll, AfterAll, TrailInMode, Sample, Feeds, TellsMode, PathTlvs;
    SampleOk();
    Lines();
    EntersSave(choose);
    NowTrails(choose);
    NamedNow();
    NowIsTold(FRESH, false);
  }

  // ---- lines fed by show history

  lemma HistoryLines()
    ensures Classify(Sample(), ROOT, ["show", "history"]).Command? && Classify(Sample(), ROOT, ["config"]).Command?
    ensures Classify(Sample(), CONFIG, ["do", "show", "history"]).Do? && Classify(Sample(), 1, ["cd.."]).Up?
  {
    assert Branch(Sample(), CONFIG) == CONFIG;
    assert "config"[0] == 'c' && "config"[1] == 'o' && "show"[0] == 's' && "do"[0] == 'd' && "do"[1] == 'o'
        && "repeat"[0] == 'r';
    assert "cd"[1] == 'd' && "cd.."[1] == 'd' && "cls"[1] == 'l' && "cls"[0] == 'c' && "cd"[0] == 'c'
        && "cd.."[0] == 'c' && "run"[0] == 'r';
  }

  /** A line, and the one token typed in the line it feeds. */
  function Asking(choose: Chooser, tokens: seq<string>, picked: string): (r: Line)
    requires !Loads(tokens)
    ensures Loadless(r)
  {
    assert AllLoadless(Nil);
    assert Loadless(Line(Typed([picked], choose), Nil));
    Line(Typed(tokens, choose), OneLine(Typed([picked], choose), Nil))
  }

  /** The trail of `show history`, from the root or from the do hook. */
  lemma HistoryTrail(choose: Chooser, c: Cli)
    requires TreeOk(Sample()) && (c.cursor == ROOT || c.cursor == 1)
    ensures Walk(Sample(), choose, StartTrail(c), ["show", "history"]) == At(c, HISTORY, SHOW, false)
    ensures Feeds(Sample(), At(c, HISTORY, SHOW, false))
  {
    hide TreeOk, WalkStep, Walk;
    HistorySteps(choose, c);
    assert ["show", "history"] == ["show"] + ["history"];
    FirstToken(choose, StartTrail(c), "show", ["history"]);
    OneToken(choose, At(c, SHOW, c.cursor, false), "history");
  }

  lemma HistoryBuilt(choose: Chooser, c: Cli)
    requires TreeOk(Sample()) && (c.cursor == ROOT || c.cursor == 1)
    ensures var d := Build(Sample(), choose, c, ["show", "history"]).0;
            d.cursor == c.cursor && d.checkpoint == c.checkpoint && d.holders == c.holders
  {
    hide TreeOk, Walk, CodeTlv;
    HistoryTrail(choose, c);
    assert Branch(Sample(), HISTORY) == SHOW;
  }

  lemma PickedConfig(choose: Chooser, d: Cli)
    requires TreeOk(Sample()) && d.cursor == ROOT
    ensures Spoils(Sample(), choose, d, ["config"]) && Covered(Sample(), choose, d, ["config"])
  {
    hide TreeOk, Walk, Classify, WalkStep;
    HistoryLines();
    Steps(choose, d, false);
    OneToken(choose, StartTrail(d), "config");
  }

  /** `show history` at the root, and `config` picked from it: the mode is entered with the command
      code of `show history` below the checkpoint. */
  lemma HistoryBreaksTheMode(choose: Chooser)
    ensures TreeOk(Sample()) && Inv(Sample(), FRESH) && Classify(Sample(), ROOT, ["show", "history"]).Command?
    ensures !RemarksConfig(Sample(), Walk(Sample(), choose, StartTrail(FRESH), ["show", "history"]))
    ensures var o := Enter(Sample(), FRESH, Asking(choose, ["show", "history"], "config"));
            o.Done? && !Inv(Sample(), o.cli)
  {
    hide TreeOk, Walk, Classify, CodeTlv, Build, Spoils, Covered, Feeds, Enter;
    SampleOk();
    HistoryLines();
    HistoryTrail(choose, FRESH);
    HistoryBuilt(choose, FRESH);
    PickedConfig(choose, Build(Sample(), choose, FRESH, ["show", "history"]).0);
    var l := Asking(choose, ["show", "history"], "config");
    FedLineKeepsInv(Sample(), FRESH, l.typed, l.fed.head.typed, Nil);
  }

  /** `do show history` in the config mode, and `cd..` picked from it: the program ends. */
  lemma HistoryEndsTheProgram(choose: Chooser)
    ensures TreeOk(Sample()) && Inv(Sample(), FRESH.(cursor := CONFIG))
    ensures Enter(Sample(), FRESH.(cursor := CONFIG), Asking(choose, ["do", "show", "history"], "cd..")).Crashed?
  {
    hide TreeOk, Walk, Classify, CodeTlv, Build, Feeds, Enter;
    SampleOk();
    HistoryLines();
    var t, c := Sample(), FRESH.(cursor := CONFIG);
    assert ["do", "show", "history"][1..] == ["show", "history"];
    HistoryTrail(choose, AtDoHook(t, c));
    HistoryBuilt(choose, AtDoHook(t, c));
    var l := Asking(choose, ["do", "show", "history"], "cd..");
    FedLineInDo(t, c, l.typed, l.fed.head.typed, Nil);
  }

  // ---- lines fed by a script

  const RUN_UT := ["run", "ut", "script", "1"]

  lemma ScriptLines()
    ensures Classify(Sample(), ROOT, RUN_UT).RunUt?
    ensures Classify(Sample(), ROOT, ["show"]).Command? && Classify(Sample(), ROOT, ["foo"]).Command?
  {
    assert "run"[0] == 'r' && "run"[1] == 'u' && "repeat"[1] == 'e' && "foo"[0] == 'f' && "show"[0] == 's';
    assert "do"[0] == 'd' && "repeat"[0] == 'r' && "cd"[0] == 'c' && "cd.."[0] == 'c' && "cls"[0] == 'c';
  }

  lemma FooIsUnknown(choose: Chooser)
    requires TreeOk(Sample())
    ensures WalkStep(Sample(), choose, StartTrail(FRESH), "foo").status == CMD_NOT_FOUND
  {
    hide TreeOk;
    var t, opts := Sample(), Sample().params[ROOT].options;
    assert opts == [SLASH, 5, 6, CONFIG, SHOW];
    forall o | o in opts ensures !Accepts(t, o, "foo") && !t.params[o].kind.Leaf? {
      assert t.params[o].name[0] != 'f' == "foo"[0];
    }
    FindMatchingMeans(t, choose, opts, "foo");
  }

  /** A command that is not complete, and one that is not registered. */
  lemma BadCommands(choose: Chooser, token: string)
    requires TreeOk(Sample()) && (token == "show" || token == "foo")
    ensures Fails(Sample(), FRESH, Typed([token], choose)) && Covered(Sample(), choose, FRESH, [token])
  {
    hide TreeOk, Walk, Classify, WalkStep;
    ScriptLines();
    OneToken(choose, StartTrail(FRESH), token);
    if token == "show" {
      HistorySteps(choose, FRESH);
    } else {
      FooIsUnknown(choose);
    }
  }

  /** A script with a command that is incomplete or not registered ends the program, and so does one
      that cannot be opened. */
  lemma ScriptEndsTheProgram(choose: Chooser, token: string)
    requires token == "show" || token == "foo"
    ensures TreeOk(Sample()) && Inv(Sample(), FRESH)
    ensures Enter(Sample(), FRESH, Asking(choose, RUN_UT, token)).Crashed?
    ensures Enter(Sample(), FRESH, Line(Typed(RUN_UT, choose), Aborted)).Crashed?
  {
    hide TreeOk, Covered, Fails;
    SampleOk();
    ScriptLines();
    BadCommands(choose, token);
    var l := Asking(choose, RUN_UT, token);
    RepeatedLineKeepsInv(Sample(), FRESH, l.typed, l.fed.head.typed, Nil);
  }
}
