/** The command line as a state machine over the command tree: one step per line typed. */
module CliModel {
  import opened CliTree
  import opened Decimals

  datatype OpMode = CONFIG_DISABLE | CONFIG_ENABLE | OPERATIONAL

  datatype Status = COMPLETE | INVALID_LEAF | USER_INVALID_LEAF | CMD_NOT_FOUND | INCOMPLETE_COMMAND

  /** What reaches the application: a handler with the TLV buffer and the mode, or a leaf's
      callback that lists possible values. */
  datatype Delivery =
    | Handler(param: nat, tlvs: seq<Tlv>, mode: OpMode)
    | Suggest(param: nat, tlvs: seq<Tlv>)

  /** `buf` is the TLV buffer up to its write position, `checkpoint` a position in it; both count
      TLVs.  `log` is what the application was called with so far. */
  datatype Cli = Cli(cursor: nat, buf: seq<Tlv>, checkpoint: nat, holders: Holders, log: seq<Delivery>)

  /** The user's answer when an abbreviation is ambiguous. */
  type Chooser = seq<nat> -> int

  /** A line typed, and the answers the user gives while it is parsed. */
  datatype Typed = Typed(tokens: seq<string>, choose: Chooser)

  // ---- finding the parameter a token names

  function FirstExact(t: Tree, opts: seq<nat>, token: string): (r: Option<nat>)
    requires forall o | o in opts :: Has(t, o)
    ensures r.Some? ==> r.value in opts
  {
    if opts == [] then None
    else
      assert opts[0] in opts && Has(t, opts[0]);
      if !t.params[opts[0]].kind.Leaf? && t.params[opts[0]].name == token then Some(opts[0])
      else FirstExact(t, opts[1..], token)
  }

  function LastLeaf(t: Tree, opts: seq<nat>): (r: Option<nat>)
    requires forall o | o in opts :: Has(t, o)
    ensures r.Some? ==> r.value in opts && Has(t, r.value) && t.params[r.value].kind.Leaf?
  {
    if opts == [] then None
    else
      var o := opts[|opts| - 1];
      assert o in opts && Has(t, o);
      if t.params[o].kind.Leaf? then Some(o) else LastLeaf(t, opts[..|opts| - 1])
  }

  /** `find_matching_param`: an exact command name wins, then a unique abbreviation, then the
      user's choice among several; a leaf takes a token that no command accepts. */
  function FindMatching(t: Tree, choose: Chooser, opts: seq<nat>, token: string): (r: Option<nat>)
    requires forall o | o in opts :: Has(t, o)
    ensures r.Some? ==> r.value in opts
  {
    var exact, some := FirstExact(t, opts, token), Abbreviated(t, opts, token);
    if exact.Some? then exact
    else if some == [] then LastLeaf(t, opts)
    else if |some| == 1 then Some(some[0])
    else if 0 <= choose(some) < |some| then Some(some[choose(some)])
    else None
  }

  // ---- walking the tree along the tokens

  /** Where the walk is, the parameter before that, the TLVs and holders so far, whether `no` was
      passed, and whether it still goes well. */
  datatype Trail = Trail(param: nat, parent: nat, tlvs: seq<Tlv>, holders: Holders, disabled: bool, status: Status)

  /** The library's own check of a leaf value: only booleans are looked at. */
  predicate LibOk(ty: LeafType, value: string) {
    ty == BOOLEAN ==> IsPrefix("true", value) || IsPrefix("false", value)
  }

  function WalkStep(t: Tree, choose: Chooser, s: Trail, token: string): (r: Trail)
    requires TreeOk(t) && Has(t, s.param)
    ensures Has(t, r.param)
  {
    assert ParamOk(t, s.param);
    match FindMatching(t, choose, t.params[s.param].options, token)
    case None => s.(parent := s.param, status := CMD_NOT_FOUND)
    case Some(p) =>
      assert OptionOk(t, s.param, p);
      var at := s.(param := p, parent := s.param);
      match t.params[p].kind
      case Cmd => at
      case NoCmd => at.(disabled := true)
      case Leaf =>
        if !LibOk(t.params[p].leafType, token) then at.(status := INVALID_LEAF)
        else if !t.params[p].userOk(token) then at.(status := USER_INVALID_LEAF)
        else at.(tlvs := s.tlvs + [LeafTlv(t, p, token)], holders := s.holders[p := token])
  }

  function Walk(t: Tree, choose: Chooser, s: Trail, tokens: seq<string>): (r: Trail)
    requires TreeOk(t) && Has(t, s.param)
    ensures Has(t, r.param)
    decreases |tokens|
  {
    if tokens == [] || s.status != COMPLETE then s
    else Walk(t, choose, WalkStep(t, choose, s, tokens[0]), tokens[1..])
  }

  function StartTrail(c: Cli): Trail {
    Trail(c.cursor, c.cursor, c.buf, c.holders, false, COMPLETE)
  }

  function CodeTlv(t: Tree, p: nat): Tlv
    requires Has(t, p)
  {
    Tlv(INT, "CMDCODE", Decimal(t.params[p].cmdCode))
  }

  const SHOW_BRIEF := Tlv(INVALID, "SHOW_EXTENSIONS", "SHOW_BRIEF")
  const DUMMY := Tlv(INT, "", "")

  // ---- what a complete command does

  /** Calling the handler of `p`.  The handler of `config` enters the mode and moves the
      checkpoint behind everything collected so far; the others leave the command line alone. */
  function Invoke(t: Tree, c: Cli, p: nat, mode: OpMode): Cli {
    var c' := c.(log := c.log + [Handler(p, c.buf, mode)]);
    if p == t.config then c'.(cursor := p, checkpoint := |c.buf|) else c'
  }

  /** `mode_enter_callback`. */
  function EnterMode(t: Tree, c: Cli, p: nat, mode: OpMode): Cli
    requires Has(t, p)
  {
    if p == ROOT then c
    else
      var c' := c.(cursor := p);
      if t.params[p].hasCallback then Invoke(t, c', p, mode) else c'
  }

  function Push(c: Cli, tlv: Tlv): Cli {
    c.(buf := c.buf + [tlv])
  }

  /** The last part of `build_tlv_buffer`, for a trail that used up all tokens. */
  function Dispatch(t: Tree, c: Cli, s: Trail): (Cli, Status)
    requires TreeOk(t) && Has(t, s.param) && Has(t, s.parent) && s.param != ROOT
  {
    if !t.params[s.param].hasCallback then (c, INCOMPLETE_COMMAND)
    else if s.param == t.brief then
      if !t.params[s.parent].hasCallback then (c, INCOMPLETE_COMMAND)
      else (Invoke(t, Push(Push(c, SHOW_BRIEF), CodeTlv(t, s.parent)), s.parent, OPERATIONAL), COMPLETE)
    else if s.param == t.suboptions then
      if t.params[s.parent].hasDisplay then
        var c' := Push(c, DUMMY);
        (c'.(log := c'.log + [Suggest(s.parent, c'.buf)]), COMPLETE)
      else (c, COMPLETE)
    else if s.param == t.mode then
      var c' := Push(c.(checkpoint := |c.buf|), CodeTlv(t, s.parent));
      (EnterMode(t, c', s.parent, if s.disabled then CONFIG_DISABLE else CONFIG_ENABLE), COMPLETE)
    else if s.param == t.expansion then (c, COMPLETE)
    else
      var hook := Branch(t, s.param);
      var mode := if hook != t.config then OPERATIONAL else if s.disabled then CONFIG_DISABLE else CONFIG_ENABLE;
      var c' := if hook != t.repeatHook && s.param != t.config then Push(c, CodeTlv(t, s.param)) else c;
      (Invoke(t, c', s.param, mode), COMPLETE)
  }

  /** `build_tlv_buffer`. */
  function Build(t: Tree, choose: Chooser, c: Cli, tokens: seq<string>): (Cli, Status)
    requires TreeOk(t) && Has(t, c.cursor) && tokens != []
  {
    var s := Walk(t, choose, StartTrail(c), tokens);
    WalkEnds(t, choose, StartTrail(c), tokens);
    var c' := c.(buf := s.tlvs, holders := s.holders);
    if s.status != COMPLETE then (c', s.status) else Dispatch(t, c', s)
  }

  // ---- moving the cursor

  /** `go_one_level_up_cmd_tree`. */
  function GoUp(t: Tree, c: Cli): Cli
    requires Has(t, c.cursor)
  {
    if c.cursor == ROOT then c
    else
      var c' := if t.params[c.cursor].kind.Leaf? && c.buf != []
                then c.(holders := c.holders[c.cursor := ""], buf := c.buf[..|c.buf| - 1], checkpoint := |c.buf| - 1)
                else c;
      var up := t.params[c.cursor].parent;
      if up == ROOT then c'.(cursor := ROOT, buf := [], checkpoint := 0) else c'.(cursor := up)
  }

  function ClearPath(t: Tree, p: nat, h: Holders): Holders
    requires Has(t, p)
    decreases p
  {
    if p == ROOT then h
    else
      var h' := if t.params[p].kind.Leaf? then h[p := ""] else h;
      var q := t.params[p].parent;
      if q < p then ClearPath(t, q, h') else h'
  }

  /** `goto_top_of_cmd_tree`. */
  function GoTop(t: Tree, c: Cli): Cli
    requires Has(t, c.cursor)
  {
    if c.cursor == ROOT then c
    else Cli(ROOT, [], 0, ClearPath(t, c.cursor, c.holders), c.log)
  }

  // ---- one line

  datatype LineKind = Empty | Do | DoElsewhere | Repeat | Up | Top | Clear | RunUt | ConfigLoad | Command

  /** Which of the parser's cases a line falls into: they are tried in this order, and most of
      them look at the beginning of the first token only. */
  function Classify(t: Tree, cursor: nat, tokens: seq<string>): LineKind
    requires Has(t, cursor)
  {
    if tokens == [] then Empty
    else if |tokens| > 1 && IsPrefix("do", tokens[0]) && cursor != ROOT then
      if Branch(t, cursor) == t.config then Do else DoElsewhere
    else if IsPrefix(tokens[0], "repeat") then Repeat
    else if IsPrefix("cd..", tokens[0]) && |tokens| == 1 then Up
    else if IsPrefix("cd", tokens[0]) && |tokens| == 1 then Top
    else if IsPrefix("cls", tokens[0]) && |tokens| == 1 then Clear
    else if |tokens| == 4 && IsPrefix("run", tokens[0]) && IsPrefix("ut", tokens[1]) then RunUt
    else if |tokens| == 3 && IsPrefix("config", tokens[0]) && IsPrefix("load", tokens[1]) then ConfigLoad
    else Command
  }

  /** The parameter whose handler a trail that used up the whole line runs, and runs last. */
  function Called(t: Tree, s: Trail): (r: Option<nat>)
    requires Has(t, s.param) && Has(t, s.parent)
    ensures r.Some? ==> Has(t, r.value)
  {
    if s.status != COMPLETE || !t.params[s.param].hasCallback then None
    else if s.param == t.suboptions || s.param == t.expansion then None
    else if s.param != t.brief && s.param != t.mode then Some(s.param)
    else if t.params[s.parent].hasCallback && (s.param == t.brief || s.parent != ROOT) then Some(s.parent)
    else None
  }

  /** What that handler does. */
  function Feeding(t: Tree, s: Trail): Feeder {
    if Has(t, s.param) && Has(t, s.parent) && Called(t, s).Some? then t.params[Called(t, s).value].feeds else Plain
  }

  /** It has further lines parsed. */
  predicate Feeds(t: Tree, s: Trail) {
    !Feeding(t, s).Plain?
  }

  /** A `do` command is parsed from the do hook, with an empty buffer. */
  function AtDoHook(t: Tree, c: Cli): Cli {
    c.(cursor := t.doHook, buf := [], checkpoint := 0)
  }

  /** The lines that are all there is to parse: not those that have further lines parsed, which
      CliNested is about. */
  predicate Covered(t: Tree, choose: Chooser, c: Cli, tokens: seq<string>)
    requires TreeOk(t) && Has(t, c.cursor)
  {
    match Classify(t, c.cursor, tokens)
    case Repeat | RunUt | ConfigLoad => false
    case Command => !Feeds(t, Walk(t, choose, StartTrail(c), tokens))
    case Do => !Feeds(t, Walk(t, choose, StartTrail(AtDoHook(t, c)), tokens[1..]))
    case _ => true
  }

  /** At the end of a line the buffer goes back to the checkpoint, or is emptied at the root. */
  function Settle(c: Cli): Cli {
    if c.cursor == ROOT then c.(buf := [], checkpoint := 0)
    else if c.checkpoint <= |c.buf| then c.(buf := c.buf[..c.checkpoint])
    else c
  }

  /** A `do` command runs from the do hook with an empty buffer.  If it did not enter a mode, the
      cursor goes back and the buffer is built again from the leaves on the path. */
  function RunDo(t: Tree, choose: Chooser, c: Cli, tokens: seq<string>): (Cli, Status)
    requires TreeOk(t) && Has(t, c.cursor) && tokens != []
  {
    var (r, status) := Build(t, choose, AtDoHook(t, c), tokens);
    if r.cursor != t.doHook then (r, status)
    else
      var path := PathTlvs(t, c.cursor, r.holders);
      (r.(cursor := c.cursor, buf := path, checkpoint := |path|), status)
  }

  /** What `parse_input_cmd` does before the line ends. */
  function Act(t: Tree, choose: Chooser, c: Cli, tokens: seq<string>): (Cli, Status)
    requires TreeOk(t) && Has(t, c.cursor) && tokens != []
  {
    match Classify(t, c.cursor, tokens)
    case Do => RunDo(t, choose, c, tokens[1..])
    case Up => (GoUp(t, c), COMPLETE)
    case Top => (GoTop(t, c), COMPLETE)
    case Command => Build(t, choose, c, tokens)
    case _ => (c, COMPLETE)
  }

  /** `parse_input_cmd`. */
  function Parse(t: Tree, choose: Chooser, c: Cli, tokens: seq<string>): (Cli, Status)
    requires TreeOk(t) && Has(t, c.cursor)
  {
    if tokens == [] then (c, INCOMPLETE_COMMAND)
    else
      var (r, status) := Act(t, choose, c, tokens);
      (Settle(r), status)
  }

  // ---- the trail

  lemma {:induction false} WalkEnds(t: Tree, choose: Chooser, s: Trail, tokens: seq<string>)
    requires TreeOk(t) && Has(t, s.param) && Has(t, s.parent)
    ensures var r := Walk(t, choose, s, tokens);
            Has(t, r.parent) && (tokens != [] && s.status == COMPLETE && r.status == COMPLETE ==> r.param != ROOT)
    decreases |tokens|
  {
    if tokens != [] && s.status == COMPLETE {
      var s' := WalkStep(t, choose, s, tokens[0]);
      assert ParamOk(t, s.param);
      WalkEnds(t, choose, s', tokens[1..]);
    }
  }
}
