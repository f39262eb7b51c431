/** What every line that has no further line parsed keeps, even after one that broke the invariant: the
    buffer still ends with the leaf TLVs of the path to the cursor, so `cd..` always has a TLV to drop
    and the checkpoint is never behind the write position.  CliNested says what remains of that when
    lines have further lines parsed. */
module CliBounds {
  import opened CliTree
  import opened CliModel
  import opened CliLaws

  predicate EndsWith(buf: seq<Tlv>, path: seq<Tlv>) {
    |path| <= |buf| && buf[|buf| - |path|..] == path
  }

  ghost predicate Sane(t: Tree, c: Cli) {
    Proper(t, c.cursor) && c.checkpoint == |c.buf| && EndsWith(c.buf, PathTlvs(t, c.cursor, c.holders))
  }

  lemma InvIsSane(t: Tree, c: Cli)
    requires Inv(t, c)
    ensures Sane(t, c)
  {}

  /** What was in the buffer before the walk stays in front of what the walk collects. */
  lemma {:induction false} WalkBehind(t: Tree, choose: Chooser, s: Trail, junk: seq<Tlv>, tokens: seq<string>)
    requires TreeOk(t) && Has(t, s.param)
    ensures var r := Walk(t, choose, s, tokens);
        Walk(t, choose, s.(tlvs := junk + s.tlvs), tokens) == r.(tlvs := junk + r.tlvs)
    decreases |tokens|
  {
    hide TreeOk, WalkStep;
    if tokens != [] && s.status == COMPLETE {
      var s' := WalkStep(t, choose, s, tokens[0]);
      StepBehind(t, choose, s, junk, tokens[0]);
      WalkBehind(t, choose, s', junk, tokens[1..]);
    }
  }

  lemma StepBehind(t: Tree, choose: Chooser, s: Trail, junk: seq<Tlv>, token: string)
    requires TreeOk(t) && Has(t, s.param)
    ensures var r := WalkStep(t, choose, s, token);
        WalkStep(t, choose, s.(tlvs := junk + s.tlvs), token) == r.(tlvs := junk + r.tlvs)
  {
    hide TreeOk, FindMatching, LibOk;
    var r := WalkStep(t, choose, s, token);
    assert junk + (s.tlvs + [LeafTlv(t, r.param, token)]) == (junk + s.tlvs) + [LeafTlv(t, r.param, token)];
  }

  /** The walk from a sane state: the place reached is the right one, and what was collected ends
      with its path. */
  lemma SaneWalk(t: Tree, choose: Chooser, c: Cli, tokens: seq<string>)
    requires TreeOk(t) && Sane(t, c)
    ensures var s := Walk(t, choose, StartTrail(c), tokens);
            && c.buf <= s.tlvs && SameUpTo(c.holders, s.holders, c.cursor)
            && (s.status == COMPLETE ==>
                  && PlaceOk(t, s) && c.cursor <= Spot(t, s)
                  && EndsWith(s.tlvs, PathTlvs(t, Spot(t, s), s.holders)))
  {
    hide TreeOk, Walk;
    var path := PathTlvs(t, c.cursor, c.holders);
    var junk := c.buf[..|c.buf| - |path|];
    var s0 := StartTrail(c.(buf := path));
    StartOk(t, c.(buf := path, checkpoint := |path|));
    assert StartTrail(c) == s0.(tlvs := junk + s0.tlvs);
    WalkBehind(t, choose, s0, junk, tokens);
    WalkDown(t, choose, s0, tokens);
    var r0 := Walk(t, choose, s0, tokens);
  }

  lemma SettleSane(t: Tree, c: Cli, r: Cli)
    requires TreeOk(t) && Sane(t, c) && r.cursor == c.cursor && r.checkpoint == c.checkpoint && c.buf <= r.buf
    requires SameUpTo(c.holders, r.holders, c.cursor)
    ensures Sane(t, Settle(r))
  {
    hide TreeOk;
    PathFrame(t, c.cursor, c.holders, r.holders);
    assert c.cursor == ROOT || Settle(r).buf == c.buf;
  }

  lemma BuildKeepsSane(t: Tree, choose: Chooser, c: Cli, tokens: seq<string>)
    requires TreeOk(t) && Sane(t, c) && tokens != []
    ensures Sane(t, Settle(Build(t, choose, c, tokens).0))
  {
    hide Walk, Dispatch;
    var s, r := Walk(t, choose, StartTrail(c), tokens), Build(t, choose, c, tokens).0;
    WalkEnds(t, choose, StartTrail(c), tokens);
    SaneWalk(t, choose, c, tokens);
    if s.status == COMPLETE {
      DispatchCases(t, c.(buf := s.tlvs, holders := s.holders), s);
      assert ParamOk(t, s.parent);
      assert c.buf <= r.buf;
      if s.param == t.mode && s.parent != t.config {
        assert OptionOk(t, s.parent, t.mode);
        assert s.parent != ROOT ==> Settle(r).buf == s.tlvs;
        assert s.parent == ROOT ==> c.cursor == ROOT;
      } else if !RemarksConfig(t, s) && s.param != t.config {
        SettleSane(t, c, r);
      }
    } else {
      SettleSane(t, c, r);
    }
  }

  lemma DropLast(buf: seq<Tlv>, path: seq<Tlv>, last: Tlv)
    requires EndsWith(buf, path + [last])
    ensures buf != [] && EndsWith(buf[..|buf| - 1], path)
  {
    var n := |buf| - |path| - 1;
    assert buf[..|buf| - 1][n..] == buf[n..][..|path|] == (path + [last])[..|path|];
  }

  lemma AtRootSane(t: Tree, c: Cli)
    requires TreeOk(t) && c.cursor == ROOT && c.buf == [] && c.checkpoint == 0
    ensures Sane(t, c)
  {}

  lemma GoUpKeepsSane(t: Tree, c: Cli)
    requires TreeOk(t) && Sane(t, c)
    ensures Sane(t, Settle(GoUp(t, c)))
        && (Has(t, c.cursor) && t.params[c.cursor].kind.Leaf? && c.cursor != ROOT ==> c.buf != [])
  {
    hide EndsWith, TreeOk;
    assert c.cursor == ROOT || ParamOk(t, c.cursor) by {
      UseTreeOk(t, c.cursor);
    }
    var r := GoUp(t, c);
    assert r.buf[..|r.buf|] == r.buf;
    if r.cursor == ROOT {
      AtRootSane(t, Settle(r));
    }
    if c.cursor != ROOT {
      var up := t.params[c.cursor].parent;
      PathFrame(t, up, c.holders, r.holders);
      if t.params[c.cursor].kind.Leaf? {
        DropLast(c.buf, PathTlvs(t, up, c.holders), LeafTlv(t, c.cursor, Held(c.holders, c.cursor)));
      }
    }
  }

  /** No line that is all there is to parse leaves the buffer shorter than the path, whether it keeps
      the invariant or not. */
  lemma EveryLineKeepsSane(t: Tree, choose: Chooser, c: Cli, tokens: seq<string>)
    requires TreeOk(t) && Sane(t, c) && Covered(t, choose, c, tokens)
    ensures Sane(t, Parse(t, choose, c, tokens).0)
  {
    match Classify(t, c.cursor, tokens)
    case Do =>
      DoOutcome(t, choose, c, tokens[1..]);
    case Up => GoUpKeepsSane(t, c);
    case Top =>
    case Command => BuildKeepsSane(t, choose, c, tokens);
    case _ => SettleSane(t, c, c);
  }

  ghost predicate AllCovered(t: Tree, c: Cli, lines: seq<Typed>)
    requires TreeOk(t) && Has(t, c.cursor)
    decreases |lines|
  {
    lines == [] ||
    (&& Covered(t, lines[0].choose, c, lines[0].tokens)
     && var r := Parse(t, lines[0].choose, c, lines[0].tokens).0; (Has(t, r.cursor) ==> AllCovered(t, r, lines[1..])))
  }

  /** Nor does any run of such lines. */
  lemma {:induction false} RunsKeepSane(t: Tree, c: Cli, lines: seq<Typed>)
    requires TreeOk(t) && Sane(t, c) && AllCovered(t, c, lines)
    ensures Run(t, c, lines).Some? && Sane(t, Run(t, c, lines).value)
    decreases |lines|
  {
    hide TreeOk, Parse, Covered, EndsWith, PathTlvs;
    if lines != [] {
      EveryLineKeepsSane(t, lines[0].choose, c, lines[0].tokens);
      RunsKeepSane(t, Parse(t, lines[0].choose, c, lines[0].tokens).0, lines[1..]);
    }
  }
}
