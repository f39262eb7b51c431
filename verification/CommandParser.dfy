/** The command line as it is built: a cursor, the serialize buffer and the leaves' value holders,
    changed step by step while a line is parsed.  Every method does to the state what the model's
    function of the same name says. */
module CommandParser {
  import opened CliTree
  import opened CliModel
  import opened CliLaws
  import opened CliBounds
  import opened CliNested
  import opened CliDepth
  import opened Serialize

  // ---- collecting along the options

  lemma {:induction false} FirstExactAppend(t: Tree, opts: seq<nat>, o: nat, token: string)
    requires (forall p | p in opts :: Has(t, p)) && Has(t, o)
    ensures forall p | p in opts + [o] :: Has(t, p)
    ensures FirstExact(t, opts + [o], token) ==
            if FirstExact(t, opts, token).Some? then FirstExact(t, opts, token)
            else if !t.params[o].kind.Leaf? && t.params[o].name == token then Some(o) else None
  {
    if opts != [] {
      assert opts[0] in opts && (opts + [o])[1..] == opts[1..] + [o];
      FirstExactAppend(t, opts[1..], o, token);
    }
  }

  lemma {:induction false} FirstExactPrefix(t: Tree, opts: seq<nat>, i: nat, token: string)
    requires (forall p | p in opts :: Has(t, p)) && i <= |opts| && FirstExact(t, opts[..i], token).Some?
    ensures FirstExact(t, opts, token) == FirstExact(t, opts[..i], token)
  {
    assert opts[0] in opts && opts[..i][0] == opts[0] && opts[..i][1..] == opts[1..][..i - 1];
    if FirstExact(t, opts[..i][1..], token).Some?
        && FirstExact(t, opts[..i], token) == FirstExact(t, opts[..i][1..], token) {
      FirstExactPrefix(t, opts[1..], i - 1, token);
    }
  }

  lemma {:induction false} AbbreviatedAppend(t: Tree, opts: seq<nat>, o: nat, token: string)
    requires (forall p | p in opts :: Has(t, p)) && Has(t, o)
    ensures forall p | p in opts + [o] :: Has(t, p)
    ensures Abbreviated(t, opts + [o], token) ==
            Abbreviated(t, opts, token) +
            if !t.params[o].kind.Leaf? && IsPrefix(token, t.params[o].name) then [o] else []
  {
    if opts != [] {
      assert opts[0] in opts && (opts + [o])[1..] == opts[1..] + [o];
      AbbreviatedAppend(t, opts[1..], o, token);
    }
  }

  lemma {:induction false} AbbreviatedPrefix(t: Tree, opts: seq<nat>, i: nat, token: string)
    requires (forall p | p in opts :: Has(t, p)) && i <= |opts|
    ensures |Abbreviated(t, opts[..i], token)| <= |Abbreviated(t, opts, token)|
    decreases |opts| - i
  {
    if i < |opts| {
      assert opts[i] in opts && opts[..i + 1] == opts[..i] + [opts[i]];
      AbbreviatedAppend(t, opts[..i], opts[i], token);
      AbbreviatedPrefix(t, opts, i + 1, token);
    } else {
      assert opts[..i] == opts;
    }
  }

  lemma OptionsOk(t: Tree, p: nat, token: string)
    requires TreeOk(t) && Has(t, p) && token != ""
    ensures forall o | o in t.params[p].options :: Has(t, o)
    ensures |Abbreviated(t, t.params[p].options, token)| < POSSIBILITY_ARRAY_SIZE
  {
    assert ParamOk(t, p);
  }

  lemma NamedOk(t: Tree, p: nat, o: nat)
    requires TreeOk(t) && Has(t, p) && o in t.params[p].options
    ensures Has(t, o) && o != ROOT && o != t.doHook
  {
    assert ParamOk(t, p) && OptionOk(t, p, o);
  }

  /** The tokens of a line are what is between blanks. */
  predicate Tokenized(l: Line)
    decreases l
  {
    (forall token | token in l.typed.tokens :: token != "") && AllTokenized(l.fed)
  }

  predicate AllTokenized(ls: Lines)
    decreases ls
  {
    ls.Cons? ==> Tokenized(ls.head) && AllTokenized(ls.tail)
  }

  class CommandLine {
    const tree: Tree
    const tlvBuff: SerBuff
    var cursor: nat
    var holders: Holders
    ghost var log: seq<Delivery>

    ghost predicate Valid()
      reads this, tlvBuff
    {
      TreeOk(tree) && Has(tree, cursor) && tlvBuff.Valid()
    }

    ghost function Repr(): set<object>
      reads this, tlvBuff
    {
      {this, tlvBuff, tlvBuff.b}
    }

    ghost function State(): (c: Cli)
      requires Valid()
      reads this, tlvBuff, tlvBuff.b
    {
      Cli(cursor, tlvBuff.Contents(), tlvBuff.Mark(), holders, log)
    }

    /** `init_libcli`. */
    constructor (tree: Tree)
      requires TreeOk(tree)
      ensures Valid() && fresh(tlvBuff) && fresh(tlvBuff.b) && this.tree == tree
      ensures State() == Cli(ROOT, [], 0, map[], []) && Inv(tree, State()) && Roomy(tree, State())
    {
      this.tree := tree;
      tlvBuff := new SerBuff(TLV_MAX_BUFFER_SIZE);
      cursor, holders, log := ROOT, map[], [];
      new;
      InvIsSane(tree, State());
      SaneIsRoomy(tree, State());
    }

    // ---- finding the parameter a token names

    /** `is_cmd_string_match`. */
    method IsCmdStringMatch(p: nat, token: string) returns (isMatch: bool, exMatch: bool)
      requires Has(tree, p)
      ensures isMatch == IsPrefix(token, tree.params[p].name) && exMatch == (tree.params[p].name == token)
    {
      var name := tree.params[p].name;
      isMatch := |token| <= |name| && name[..|token|] == token;
      exMatch := isMatch && |token| == |name|;
    }

    /** `find_matching_param`. */
    method FindMatchingParam(choose: Chooser, options: seq<nat>, token: string) returns (r: Option<nat>)
      requires forall o | o in options :: Has(tree, o)
      requires |Abbreviated(tree, options, token)| < POSSIBILITY_ARRAY_SIZE
      ensures r == FindMatching(tree, choose, options, token)
    {
      var arrayOfPossibilities := new nat[POSSIBILITY_ARRAY_SIZE];
      var i, leafIndex, j := 0, -1, 0;
      while i < |options|
        invariant 0 <= i <= |options| && -1 <= leafIndex < i && 0 <= j < POSSIBILITY_ARRAY_SIZE
        invariant FirstExact(tree, options[..i], token).None?
        invariant arrayOfPossibilities[..j] == Abbreviated(tree, options[..i], token)
        invariant LastLeaf(tree, options[..i]) == if leafIndex >= 0 then Some(options[leafIndex]) else None
      {
        var o := options[i];
        assert o in options && options[..i + 1] == options[..i] + [o];
        FirstExactAppend(tree, options[..i], o, token);
        AbbreviatedAppend(tree, options[..i], o, token);
        AbbreviatedPrefix(tree, options, i + 1, token);
        assert options[..i + 1][..i] == options[..i];
        if tree.params[o].kind.Leaf? {
          leafIndex := i;
        } else {
          var isMatch, exMatch := IsCmdStringMatch(o, token);
          if isMatch {
            if exMatch {
              FirstExactPrefix(tree, options, i + 1, token);
              return Some(o);
            }
            arrayOfPossibilities[j] := o;
            j := j + 1;
          }
        }
        i := i + 1;
      }
      assert options[..i] == options;
      if leafIndex >= 0 && j == 0 {
        return Some(options[leafIndex]);
      }
      if j == 0 {
        return None;
      }
      if j == 1 {
        return Some(arrayOfPossibilities[0]);
      }
      var choice := choose(arrayOfPossibilities[..j]);
      if choice < 0 || choice > j - 1 {
        return None;
      }
      return Some(arrayOfPossibilities[choice]);
    }

    // ---- calling the application

    /** `INVOKE_APPLICATION_CALLBACK_HANDLER`; `config_mode_enter_handler` is the one that matters. */
    method InvokeCallback(p: nat, mode: OpMode)
      requires Valid() && Has(tree, p)
      modifies this, tlvBuff
      ensures Valid() && tlvBuff.b == old(tlvBuff.b)
      ensures State() == Invoke(tree, old(State()), p, mode)
    {
      log := log + [Handler(p, tlvBuff.Contents(), mode)];
      if p == tree.config {
        cursor := p;
        tlvBuff.MarkCheckpoint();
      }
    }

    /** `mode_enter_callback`. */
    method ModeEnterCallback(p: nat, mode: OpMode)
      requires Valid() && Has(tree, p)
      modifies this, tlvBuff
      ensures Valid() && tlvBuff.b == old(tlvBuff.b)
      ensures State() == EnterMode(tree, old(State()), p, mode)
    {
      if p == ROOT {
        return;
      }
      cursor := p;
      if tree.params[p].hasCallback {
        InvokeCallback(p, mode);
      }
    }

    /** `get_current_branch_hook`: up to the parameter right below the root. */
    method GetCurrentBranchHook(p: nat) returns (r: nat)
      requires TreeOk(tree) && Has(tree, p) && p != ROOT && p != tree.doHook && !Special(tree, p)
      ensures r == Branch(tree, p) && Above(tree, r, p) && Has(tree, r) && tree.params[r].parent == ROOT
    {
      BranchIsBelowRoot(tree, p);
      r := p;
      assert ParamOk(tree, r);
      while tree.params[r].parent != ROOT
        invariant Has(tree, r) && r != ROOT && r != tree.doHook && !Special(tree, r)
            && Branch(tree, r) == Branch(tree, p)
        invariant tree.params[r].parent < r && Proper(tree, tree.params[r].parent)
        decreases r
      {
        r := tree.params[r].parent;
        assert ParamOk(tree, r);
      }
    }

    method CollectTlv(tlv: Tlv)
      requires Valid()
      modifies tlvBuff, tlvBuff.b
      ensures Valid() && fresh(Repr() - old(Repr()))
      ensures State() == Push(old(State()), tlv)
    {
      tlvBuff.SerializeString(tlv);
    }

    /** The second half of `build_tlv_buffer`: every token was accepted.  `called` is the parameter whose
        handler ran. */
    method DispatchCommand(param: nat, parent: nat, disabled: bool) returns (status: Status, called: Option<nat>)
      requires Valid() && Has(tree, param) && Has(tree, parent) && param != ROOT && param != tree.doHook
      modifies Repr()
      ensures Valid() && fresh(Repr() - old(Repr()))
      ensures var s := Trail(param, parent, old(State().buf), old(holders), disabled, COMPLETE);
              (State(), status) == Dispatch(tree, old(State()), s) && called == Called(tree, s)
    {
      status, called := COMPLETE, None;
      if !tree.params[param].hasCallback {
        return INCOMPLETE_COMMAND, None;
      }
      if param == tree.brief {
        if !tree.params[parent].hasCallback {
          return INCOMPLETE_COMMAND, None;
        }
        CollectTlv(SHOW_BRIEF);
        CollectTlv(CodeTlv(tree, parent));
        InvokeCallback(parent, OPERATIONAL);
        called := Some(parent);
      } else if param == tree.suboptions {
        if tree.params[parent].hasDisplay {
          CollectTlv(DUMMY);
          log := log + [Suggest(parent, tlvBuff.Contents())];
        }
      } else if param == tree.mode {
        tlvBuff.MarkCheckpoint();
        CollectTlv(CodeTlv(tree, parent));
        ModeEnterCallback(parent, if disabled then CONFIG_DISABLE else CONFIG_ENABLE);
        called := if parent != ROOT && tree.params[parent].hasCallback then Some(parent) else None;
      } else if param != tree.expansion {
        var hook := GetCurrentBranchHook(param);
        var mode := if hook != tree.config then OPERATIONAL else if disabled then CONFIG_DISABLE else CONFIG_ENABLE;
        if hook != tree.repeatHook && param != tree.config {
          CollectTlv(CodeTlv(tree, param));
        }
        InvokeCallback(param, mode);
        called := Some(param);
      }
    }

    /** `build_tlv_buffer`, and whether the handler it called last has further lines parsed. */
    method BuildTlvBuffer(choose: Chooser, tokens: seq<string>) returns (status: Status, feeder: Feeder)
      requires Valid() && tokens != [] && forall token | token in tokens :: token != ""
      modifies Repr()
      ensures Valid() && fresh(Repr() - old(Repr()))
      ensures (State(), status) == Build(tree, choose, old(State()), tokens)
      ensures feeder == Feeding(tree, Walk(tree, choose, StartTrail(old(State())), tokens))
    {
      hide TreeOk, FindMatching, LibOk, Abbreviated, Dispatch;
      var i := 0;
      var parent, param := cursor, cursor;
      var disabled := false;
      status, feeder := COMPLETE, Plain;
      assert tokens[0..] == tokens;
      WalkEnds(tree, choose, StartTrail(State()), tokens);
      while i < |tokens|
        invariant 0 <= i <= |tokens| && Valid() && fresh(Repr() - old(Repr()))
        invariant Has(tree, param) && Has(tree, parent) && (i > 0 ==> param != ROOT && param != tree.doHook)
        invariant cursor == old(cursor) && log == old(log) && State().checkpoint == old(State()).checkpoint
            && status == COMPLETE
        invariant Walk(tree, choose, StartTrail(old(State())), tokens)
               == Walk(tree, choose, Trail(param, parent, State().buf, holders, disabled, status), tokens[i..])
      {
        ghost var before := Trail(param, parent, State().buf, holders, disabled, status);
        assert tokens[i] in tokens && tokens[i..][0] == tokens[i] && tokens[i..][1..] == tokens[i + 1..];
        OptionsOk(tree, param, tokens[i]);
        parent := param;
        var found := FindMatchingParam(choose, tree.params[param].options, tokens[i]);
        if found.None? {
          status := CMD_NOT_FOUND;
          break;
        }
        param := found.value;
        NamedOk(tree, parent, param);
        if tree.params[param].kind.Leaf? {
          if !LibOk(tree.params[param].leafType, tokens[i]) {
            status := INVALID_LEAF;
            break;
          }
          if !tree.params[param].userOk(tokens[i]) {
            status := USER_INVALID_LEAF;
            break;
          }
          holders := holders[param := tokens[i]];
          CollectTlv(LeafTlv(tree, param, tokens[i]));
        } else if tree.params[param].kind.NoCmd? {
          disabled := true;
        }
        assert Trail(param, parent, State().buf, holders, disabled, status) ==
            WalkStep(tree, choose, before, tokens[i]);
        i := i + 1;
      }
      ghost var s := Trail(param, parent, State().buf, holders, disabled, status);
      assert Walk(tree, choose, StartTrail(old(State())), tokens) == s;
      if status == COMPLETE {
        var called;
        status, called := DispatchCommand(param, parent, disabled);
        feeder := if called.Some? then tree.params[called.value].feeds else Plain;
      }
    }

    // ---- moving the cursor

    /** `go_one_level_up_cmd_tree`. */
    method GoOneLevelUp()
      requires Valid() && Roomy(tree, State()) && cursor != tree.doHook
      modifies this, tlvBuff
      ensures Valid() && tlvBuff.b == old(tlvBuff.b)
      ensures State() == GoUp(tree, old(State()))
    {
      hide TreeOk, PathTlvs;
      if cursor == ROOT {
        return;
      }
      GoUpKeepsRoom(tree, State());
      if tree.params[cursor].kind.Leaf? {
        holders := holders[cursor := ""];
        tlvBuff.Skip(-TLV_SIZE);
        tlvBuff.MarkCheckpoint();
      }
      cursor := tree.params[cursor].parent;
      if cursor == ROOT {
        tlvBuff.Reset();
      }
    }

    /** `goto_top_of_cmd_tree`. */
    method GotoTop()
      requires Valid() && Proper(tree, cursor)
      modifies this, tlvBuff
      ensures Valid() && tlvBuff.b == old(tlvBuff.b)
      ensures State() == GoTop(tree, old(State()))
    {
      if cursor == ROOT {
        return;
      }
      var p := cursor;
      while p != ROOT
        invariant Proper(tree, p) && cursor == old(cursor) && log == old(log)
        invariant ClearPath(tree, p, holders) == ClearPath(tree, cursor, old(holders))
        invariant unchanged(tlvBuff)
        decreases p
      {
        assert ParamOk(tree, p);
        if !tree.params[p].kind.Cmd? {
          holders := holders[p := ""];
        }
        p := tree.params[p].parent;
      }
      cursor := ROOT;
      tlvBuff.Reset();
    }

    // ---- a do command

    /** `build_cmd_tree_leaves_data`, which is only called with the root as its source: collects the
        leaves' values on the way up, then reverses them. */
    method BuildCmdTreeLeavesData(dst: nat)
      requires Valid() && Proper(tree, dst)
      modifies tlvBuff, tlvBuff.b
      ensures Valid() && fresh(Repr() - old(Repr()))
      ensures State() == old(State()).(buf := PathTlvs(tree, dst, holders), checkpoint := 0)
    {
      tlvBuff.Reset();
      var p := dst;
      while p != ROOT
        invariant Proper(tree, p) && Valid() && fresh(Repr() - old(Repr())) && tlvBuff.Mark() == 0
        invariant PathTlvs(tree, dst, holders) == PathTlvs(tree, p, holders) + Reversed(tlvBuff.Contents())
        decreases p
      {
        UseTreeOk(tree, p);
        if !tree.params[p].kind.Cmd? {
          var tlv := LeafTlv(tree, p, Held(holders, p));
          ReversedSnoc(tlvBuff.Contents(), tlv);
          tlvBuff.SerializeString(tlv);
        }
        p := tree.params[p].parent;
      }
      tlvBuff.ReverseUnits();
    }

    /** The command in `tokens` with the lines its handler has parsed. */
    method ExecuteCommand(l: Line, tokens: seq<string>) returns (status: Status, alive: bool)
      requires Valid() && Roomy(tree, State()) && Loadless(l) && Tokenized(l) && tokens != []
      requires forall token | token in tokens :: token != ""
      modifies Repr()
      ensures Valid() && fresh(Repr() - old(Repr()))
      ensures status == Build(tree, l.typed.choose, old(State()), tokens).1
      ensures alive == Execute(tree, old(State()), l, tokens).Done?
      ensures alive ==> State() == Execute(tree, old(State()), l, tokens).cli && Roomy(tree, State())
      decreases l, 1
    {
      hide TreeOk, Build, PathTlvs, Walk, Roomy, Feed;
      BuildKeepsRoom(tree, l.typed.choose, State(), tokens);
      var feeder;
      status, feeder := BuildTlvBuffer(l.typed.choose, tokens);
      alive := true;
      if !feeder.Plain? {
        RoomyKnown(tree, State());
        alive := FeedLines(l.fed, feeder.Script?);
      }
    }

    /** A `do` command.  Behind it the program asserts that the mode it entered, if any, is not one of
        the config branch. */
    method RunDoCommand(l: Line) returns (status: Status, alive: bool)
      requires Valid() && Roomy(tree, State()) && Loadless(l) && Tokenized(l)
      requires |l.typed.tokens| > 1 && cursor != tree.doHook
      modifies Repr()
      ensures Valid() && fresh(Repr() - old(Repr()))
      ensures status == Build(tree, l.typed.choose, AtDoHook(tree, old(State())), l.typed.tokens[1..]).1
      ensures var o := Execute(tree, AtDoHook(tree, old(State())), l, l.typed.tokens[1..]);
              && alive == AfterDo(tree, old(State()), o).Done?
              && (alive ==> State() == AfterDo(tree, old(State()), o).cli && Roomy(tree, State()))
      decreases l, 2
    {
      hide TreeOk, Build, PathTlvs, Execute, Branch, Roomy;
      ghost var c := State();
      var tokens := l.typed.tokens[1..];
      var oldCursorState := cursor;
      HookHasRoom(tree, c);
      cursor := tree.doHook;
      tlvBuff.Reset();
      assert State() == AtDoHook(tree, c);
      assert forall token | token in tokens :: token in l.typed.tokens;
      status, alive := ExecuteCommand(l, tokens);
      if !alive {
        return;
      }
      RoomyKnown(tree, State());
      if cursor != tree.doHook {
        if cursor == ROOT {
          return status, false;
        }
        var hook := GetCurrentBranchHook(cursor);
        alive := hook != tree.config;
      } else {
        RoomyKnown(tree, c);
        cursor := oldCursorState;
        BuildCmdTreeLeavesData(cursor);
        tlvBuff.MarkCheckpoint();
        RebuiltHasRoom(tree, State());
      }
    }

    // ---- one line

    /** The end of `parse_input_cmd`. */
    method SettleBuffer()
      requires Valid() && (cursor != ROOT ==> tlvBuff.Mark() <= |tlvBuff.Contents()|)
      modifies tlvBuff
      ensures Valid() && tlvBuff.b == old(tlvBuff.b)
      ensures State() == Settle(old(State()))
    {
      if cursor != ROOT {
        tlvBuff.RestoreCheckpoint();
      } else {
        tlvBuff.Reset();
      }
    }

    /** The branches of `parse_input_cmd`. */
    method ActOnLine(l: Line) returns (status: Status, alive: bool)
      requires Valid() && Roomy(tree, State()) && Loadless(l) && Tokenized(l) && l.typed.tokens != []
      modifies Repr()
      ensures Valid() && fresh(Repr() - old(Repr()))
      ensures alive == Enter(tree, old(State()), l).Done?
      ensures alive ==> Settle(State()) == Enter(tree, old(State()), l).cli && Roomy(tree, State())
      ensures alive ==> status == Act(tree, l.typed.choose, old(State()), l.typed.tokens).1
      decreases l, 3
    {
      hide TreeOk, Build, PathTlvs, Execute, Branch, Roomy, GoUp, GoTop, AfterDo, Feed, Settle;
      var tokens := l.typed.tokens;
      RoomyKnown(tree, State());
      status, alive := COMPLETE, true;
      if |tokens| > 1 && IsPrefix("do", tokens[0]) && cursor != ROOT {
        if cursor == tree.doHook {
          return COMPLETE, false;
        }
        var hook := GetCurrentBranchHook(cursor);
        if hook == tree.config {
          status, alive := RunDoCommand(l);
        }
      } else if IsPrefix(tokens[0], "repeat") {
        alive := FeedLines(l.fed, false);
      } else if IsPrefix("cd..", tokens[0]) && |tokens| == 1 {
        if cursor == tree.doHook {
          return COMPLETE, false;
        }
        GoUpKeepsRoom(tree, State());
        GoOneLevelUp();
      } else if IsPrefix("cd", tokens[0]) && |tokens| == 1 {
        if cursor == tree.doHook {
          return COMPLETE, false;
        }
        TopHasRoom(tree, State());
        GotoTop();
      } else if IsPrefix("cls", tokens[0]) && |tokens| == 1 {
      } else if |tokens| == 4 && IsPrefix("run", tokens[0]) && IsPrefix("ut", tokens[1]) {
        alive := FeedLines(l.fed, true);
      } else if |tokens| == 3 && IsPrefix("config", tokens[0]) && IsPrefix("load", tokens[1]) {
        assert false;
      } else {
        status, alive := ExecuteCommand(l, tokens);
      }
    }

    /** `parse_input_cmd`, given the tokens of the line and what its handler feeds.  If `alive` is false,
        the program has ended. */
    method ParseInputCmd(l: Line) returns (status: Status, alive: bool)
      requires Valid() && Roomy(tree, State()) && Loadless(l) && Tokenized(l)
      modifies Repr()
      ensures Valid() && fresh(Repr() - old(Repr()))
      ensures alive == Enter(tree, old(State()), l).Done?
      ensures alive ==> State() == Enter(tree, old(State()), l).cli && Roomy(tree, State())
      ensures alive ==> status == Parse(tree, l.typed.choose, old(State()), l.typed.tokens).1
      decreases l, 4
    {
      hide TreeOk, PathTlvs, Settle, Act, Feed, Execute;
      if l.typed.tokens == [] {
        return INCOMPLETE_COMMAND, true;
      }
      status, alive := ActOnLine(l);
      if alive {
        SettleKeepsRoom(tree, State());
        RoomyKnown(tree, State());
        SettleBuffer();
      }
    }

    /** The loop of a handler that has lines parsed: of `run_test_case`, with its assertions, or of one
        that feeds a single line. */
    method FeedLines(ls: Lines, script: bool) returns (alive: bool)
      requires Valid() && Roomy(tree, State()) && AllLoadless(ls) && AllTokenized(ls)
      modifies Repr()
      ensures Valid() && fresh(Repr() - old(Repr()))
      ensures alive == Feed(tree, old(State()), ls, script).Done?
      ensures alive ==> State() == Feed(tree, old(State()), ls, script).cli && Roomy(tree, State())
      decreases ls, 0
    {
      hide TreeOk, PathTlvs, Roomy, Enter, Parse;
      var rest := ls;
      while rest.Cons?
        invariant Valid() && Roomy(tree, State()) && fresh(Repr() - old(Repr()))
        invariant rest == ls || rest < ls
        invariant AllLoadless(rest) && AllTokenized(rest)
        invariant Feed(tree, old(State()), ls, script) == Feed(tree, State(), rest, script)
        decreases rest
      {
        RoomyKnown(tree, State());
        var status;
        status, alive := ParseInputCmd(rest.head);
        if !alive || (script && status != COMPLETE) {
          return false;
        }
        rest := rest.tail;
      }
      alive := !(script && rest.Aborted?);
    }
  }
}
