/** The handlers of src/ServicePTZ.cpp as emitters of shell commands into one log. */
module Ptz {
  import opened Wrappers
  import opened Options
  import opened Context
  import opened Template

  datatype Action = Left | Right | Up | Down | StopMove | GoTo

  /** One call of system(). */
  datatype Command = Command(action: Action, text: string)

  /** A float; only its sign matters here. */
  datatype Axis = NaN | Number(value: real)

  datatype Vector = Vector(x: Axis, y: Axis)
  datatype Speed = Speed(panTilt: Option<Vector>)
  datatype Move = Move(speed: Option<Speed>)  // its Velocity or its Translation
  datatype PresetTokens = PresetTokens(profile: string, preset: string)

  datatype Request =
    | Continuous(move: Option<Move>)
    | Relative(move: Option<Move>)
    | Halt
    | Preset(tokens: Option<PresetTokens>)
    | Home(profile: Option<string>)

  // ------------------------------------------------- what a request emits

  predicate Positive(a: Axis) { a.Number? && a.value > 0.0 }
  predicate Negative(a: Axis) { a.Number? && a.value < 0.0 }

  function PanTilt(move: Option<Move>): Option<Vector> {
    if move.Some? && move.value.speed.Some? then move.value.speed.value.panTilt else None
  }

  /** The directions a move asks for: pan, then tilt. */
  function Directions(move: Option<Move>): (d: seq<Action>)
    ensures |d| <= 2 && forall a | a in d :: Moves(a)
  {
    match PanTilt(move)
    case None => []
    case Some(v) => Choice(v.x, Right, Left) + Choice(v.y, Up, Down)
  }

  function Choice(a: Axis, positive: Action, negative: Action): seq<Action> {
    if Positive(a) then [positive] else if Negative(a) then [negative] else []
  }

  predicate Moves(a: Action) {
    a.Left? || a.Right? || a.Up? || a.Down?
  }

  function TextOf(n: PtzSettings, a: Action): string {
    match a
    case Left => n.moveLeft
    case Right => n.moveRight
    case Up => n.moveUp
    case Down => n.moveDown
    case StopMove => n.moveStop
    case GoTo => n.movePreset
  }

  function Run(n: PtzSettings, a: Action): Command { Command(a, TextOf(n, a)) }

  /** Every direction by itself, or with a stop right behind it. */
  function Runs(n: PtzSettings, d: seq<Action>, stopping: bool): seq<Command> {
    if d == [] then []
    else Runs(n, d[..|d| - 1], stopping) + [Run(n, d[|d| - 1])] + if stopping then [Run(n, StopMove)] else []
  }

  function Emitted(n: PtzSettings, r: Request): seq<Command> {
    match r
    case Continuous(move) => Runs(n, Directions(move), false)
    case Relative(move) => Runs(n, Directions(move), true)
    case Halt => [Run(n, StopMove)]
    case Preset(tokens) =>
      if tokens.Some? && tokens.value.profile != "" && tokens.value.preset != "" && n.movePreset != ""
      then [Command(GoTo, ReplaceFirst(n.movePreset, 't', tokens.value.preset))] else []
    case Home(profile) =>
      if profile.Some? && profile.value != "" && n.movePreset != ""
      then [Command(GoTo, ReplaceFirst(n.movePreset, 't', "1"))] else []
  }

  /** The log of a session. */
  function SessionLog(n: PtzSettings, requests: seq<Request>): seq<Command> {
    if requests == [] then []
    else SessionLog(n, requests[..|requests| - 1]) + Emitted(n, requests[|requests| - 1])
  }

  // ------------------------------------------------- the handlers

  class PtzService {
    const node: PtzNode
    var log: seq<Command>

    constructor (node: PtzNode)
      ensures this.node == node && log == []
    {
      this.node := node;
      log := [];
    }

    method RunSystemCmd(action: Action, text: string)
      modifies this
      ensures log == old(log) + [Command(action, text)]
    {
      log := log + [Command(action, text)];
    }

    /** A positive x runs the right, a negative one the left command, then a positive y the up, a negative
        one the down command; nothing else. */
    method ContinuousMove(move: Option<Move>)
      modifies this
      ensures log == old(log) + Emitted(PtzNow(node), Continuous(move))
      ensures forall x, y | move == Some(Move(Some(Speed(Some(Vector(x, y)))))) ::
        log == old(log)
          + (if !x.Number? || x.value == 0.0 then []
             else if x.value > 0.0 then [Command(Right, node.moveRight)] else [Command(Left, node.moveLeft)])
          + (if !y.Number? || y.value == 0.0 then []
             else if y.value > 0.0 then [Command(Up, node.moveUp)] else [Command(Down, node.moveDown)])
      ensures (forall v :: move != Some(Move(Some(Speed(Some(v)))))) ==> log == old(log)
    {
      hide Emitted, PtzNow, TextOf;
      MoveEmits(node, move);
      if move == None { return; }
      if move.value.speed == None { return; }
      if move.value.speed.value.panTilt == None { return; }
      var v := move.value.speed.value.panTilt.value;

      ghost var first := log;
      if Positive(v.x) {
        RunSystemCmd(Right, node.moveRight);
      } else if Negative(v.x) {
        RunSystemCmd(Left, node.moveLeft);
      }
      assert log == first + Alone(v.x, Command(Right, node.moveRight), Command(Left, node.moveLeft));

      ghost var second := log;
      if Positive(v.y) {
        RunSystemCmd(Up, node.moveUp);
      } else if Negative(v.y) {
        RunSystemCmd(Down, node.moveDown);
      }
      assert log == second + Alone(v.y, Command(Up, node.moveUp), Command(Down, node.moveDown));
    }

    /** The same commands, each with the stop command right behind it. */
    method RelativeMove(move: Option<Move>)
      modifies this
      ensures log == old(log) + Emitted(PtzNow(node), Relative(move))
      ensures forall x, y | move == Some(Move(Some(Speed(Some(Vector(x, y)))))) ::
        var stop := Command(StopMove, node.moveStop);
        log == old(log)
          + (if !x.Number? || x.value == 0.0 then []
             else if x.value > 0.0 then [Command(Right, node.moveRight), stop]
             else [Command(Left, node.moveLeft), stop])
          + (if !y.Number? || y.value == 0.0 then []
             else if y.value > 0.0 then [Command(Up, node.moveUp), stop] else [Command(Down, node.moveDown), stop])
      ensures (forall v :: move != Some(Move(Some(Speed(Some(v)))))) ==> log == old(log)
    {
      hide Emitted, PtzNow, TextOf;
      MoveEmits(node, move);
      if move == None { return; }
      if move.value.speed == None { return; }
      if move.value.speed.value.panTilt == None { return; }
      var v := move.value.speed.value.panTilt.value;

      ghost var first := log;
      ghost var pan := Stopped(v.x, Command(Right, node.moveRight), Command(Left, node.moveLeft), node.moveStop);
      if Positive(v.x) {
        RunSystemCmd(Right, node.moveRight);
        RunSystemCmd(StopMove, node.moveStop);
        TwoMore(first, Command(Right, node.moveRight), Command(StopMove, node.moveStop));
      } else if Negative(v.x) {
        RunSystemCmd(Left, node.moveLeft);
        RunSystemCmd(StopMove, node.moveStop);
        TwoMore(first, Command(Left, node.moveLeft), Command(StopMove, node.moveStop));
      }
      assert log == first + pan;

      ghost var second := log;
      ghost var tilt := Stopped(v.y, Command(Up, node.moveUp), Command(Down, node.moveDown), node.moveStop);
      if Positive(v.y) {
        RunSystemCmd(Up, node.moveUp);
        RunSystemCmd(StopMove, node.moveStop);
        TwoMore(second, Command(Up, node.moveUp), Command(StopMove, node.moveStop));
      } else if Negative(v.y) {
        RunSystemCmd(Down, node.moveDown);
        RunSystemCmd(StopMove, node.moveStop);
        TwoMore(second, Command(Down, node.moveDown), Command(StopMove, node.moveStop));
      }
      assert log == second + tilt;
      hide Stopped, Positive, Negative;
      assert log == first + (pan + tilt);
    }

    method Stop()
      modifies this
      ensures log == old(log) + Emitted(PtzNow(node), Halt)
      ensures log == old(log) + [Command(StopMove, node.moveStop)]
    {
      RunSystemCmd(StopMove, node.moveStop);
    }

    /** The preset command with its first "%t" replaced by the token, when both tokens and the command are
        there. */
    method GotoPreset(tokens: Option<PresetTokens>)
      modifies this
      ensures log == old(log) + Emitted(PtzNow(node), Preset(tokens))
      ensures
        if tokens == None || tokens.value.profile == "" || tokens.value.preset == "" || node.movePreset == ""
        then log == old(log)
        else exists text :: log == old(log) + [Command(GoTo, text)]
                            && FirstReplaced(node.movePreset, 't', tokens.value.preset, text)
    {
      if tokens == None { return; }
      if tokens.value.profile == "" { return; }
      if tokens.value.preset == "" { return; }
      if node.movePreset == "" { return; }
      var presetCmd := node.movePreset;
      var it := Find(presetCmd, 't');
      if it != |presetCmd| {
        presetCmd := presetCmd[..it] + tokens.value.preset + presetCmd[it + 2..];
      }
      ReplacedIff(node.movePreset, 't', tokens.value.preset, presetCmd);
      hide FirstReplaced;
      RunSystemCmd(GoTo, presetCmd);
    }

    /** The same with the token "1". */
    method GotoHomePosition(profile: Option<string>)
      modifies this
      ensures log == old(log) + Emitted(PtzNow(node), Home(profile))
      ensures
        if profile == None || profile.value == "" || node.movePreset == "" then log == old(log)
        else exists text :: log == old(log) + [Command(GoTo, text)]
                            && FirstReplaced(node.movePreset, 't', "1", text)
    {
      if profile == None { return; }
      if profile.value == "" { return; }
      if node.movePreset == "" { return; }
      var presetCmd := node.movePreset;
      var it := Find(presetCmd, 't');
      if it != |presetCmd| {
        presetCmd := presetCmd[..it] + "1" + presetCmd[it + 2..];
      }
      ReplacedIff(node.movePreset, 't', "1", presetCmd);
      hide FirstReplaced;
      RunSystemCmd(GoTo, presetCmd);
    }

    /** Any session of requests. */
    method Serve(requests: seq<Request>)
      modifies this
      ensures log == old(log) + SessionLog(PtzNow(node), requests)
    {
      hide Emitted;
      for i := 0 to |requests|
        invariant log == old(log) + SessionLog(PtzNow(node), requests[..i])
      {
        match requests[i] {
          case Continuous(move) => ContinuousMove(move);
          case Relative(move) => RelativeMove(move);
          case Halt => Stop();
          case Preset(tokens) => GotoPreset(tokens);
          case Home(profile) => GotoHomePosition(profile);
        }
        assert requests[..i + 1][..i] == requests[..i];
      }
      assert requests[..|requests|] == requests;
    }
  }

  lemma NoRuns(n: PtzSettings)
    ensures Runs(n, [], false) == Runs(n, [], true) == []
  {
  }

  lemma RunsSnoc(n: PtzSettings, d: seq<Action>, a: Action, stopping: bool)
    ensures Runs(n, d + [a], stopping) ==
            Runs(n, d, stopping) + [Run(n, a)] + if stopping then [Run(n, StopMove)] else []
  {
    assert (d + [a])[..|d|] == d;
  }

  lemma RunsChoice(n: PtzSettings, a: Axis, positive: Action, negative: Action, stopping: bool)
    ensures Runs(n, Choice(a, positive, negative), stopping) ==
            if !Positive(a) && !Negative(a) then []
            else [Run(n, if Positive(a) then positive else negative)] + if stopping then [Run(n, StopMove)] else []
  {
    hide Runs, Run;
    var d := Choice(a, positive, negative);
    NoRuns(n);
    if d != [] {
      assert [] + [d[0]] == d;
      RunsSnoc(n, [], d[0], stopping);
    }
  }

  lemma {:induction false} RunsConcat(n: PtzSettings, a: seq<Action>, b: seq<Action>, stopping: bool)
    ensures Runs(n, a + b, stopping) == Runs(n, a, stopping) + Runs(n, b, stopping)
  {
    hide Runs, Run;
    if b == [] {
      NoRuns(n);
      assert a + b == a;
    } else {
      var front, last := b[..|b| - 1], b[|b| - 1];
      RunsConcat(n, a, front, stopping);
      assert front + [last] == b && a + front + [last] == a + b;
      RunsSnoc(n, a + front, last, stopping);
      RunsSnoc(n, front, last, stopping);
    }
  }

  /** What one axis makes a move emit. */
  function Alone(a: Axis, positive: Command, negative: Command): seq<Command> {
    if Positive(a) then [positive] else if Negative(a) then [negative] else []
  }

  function Stopped(a: Axis, positive: Command, negative: Command, stop: string): seq<Command> {
    if Positive(a) then [positive, Command(StopMove, stop)]
    else if Negative(a) then [negative, Command(StopMove, stop)] else []
  }

  lemma TwoMore(log: seq<Command>, a: Command, b: Command)
    ensures log + [a] + [b] == log + [a, b]
  {
  }

  lemma MoveEmits(node: PtzNode, move: Option<Move>)
    ensures var n := PtzNow(node);
      PanTilt(move) == None ==> Emitted(n, Continuous(move)) == Emitted(n, Relative(move)) == []
    ensures var n := PtzNow(node);
      PanTilt(move).Some? ==>
        var v := PanTilt(move).value;
        var right, left := Command(Right, node.moveRight), Command(Left, node.moveLeft);
        var up, down := Command(Up, node.moveUp), Command(Down, node.moveDown);
        && Emitted(n, Continuous(move)) == Alone(v.x, right, left) + Alone(v.y, up, down)
        && Emitted(n, Relative(move)) ==
           Stopped(v.x, right, left, node.moveStop) + Stopped(v.y, up, down, node.moveStop)
  {
    hide Runs, Choice;
    var n := PtzNow(node);
    NoRuns(n);
    if PanTilt(move).Some? {
      var v := PanTilt(move).value;
      RunsChoice(n, v.x, Right, Left, false);
      RunsChoice(n, v.x, Right, Left, true);
      RunsChoice(n, v.y, Up, Down, false);
      RunsChoice(n, v.y, Up, Down, true);
      RunsConcat(n, Choice(v.x, Right, Left), Choice(v.y, Up, Down), false);
      RunsConcat(n, Choice(v.x, Right, Left), Choice(v.y, Up, Down), true);
    }
  }

  // ------------------------------------------------- relative moves stop

  /** Where the commands of a request are in the log. */
  lemma {:induction false} SessionParts(n: PtzSettings, requests: seq<Request>, k: nat)
    requires k < |requests|
    ensures var from := SessionLog(n, requests[..k]);
            from + Emitted(n, requests[k]) == SessionLog(n, requests[..k + 1]) <= SessionLog(n, requests)
  {
    hide Emitted;
    assert requests[..k + 1][..k] == requests[..k];
    if k < |requests| - 1 {
      var front := requests[..|requests| - 1];
      SessionParts(n, front, k);
      assert front[..k + 1] == requests[..k + 1] && front[..k] == requests[..k];
    } else {
      assert requests[..k + 1] == requests;
    }
  }

  lemma {:induction false} RunsStop(n: PtzSettings, d: seq<Action>, i: nat)
    requires i < |Runs(n, d, true)| && Moves(Runs(n, d, true)[i].action)
    ensures i + 1 < |Runs(n, d, true)| && Runs(n, d, true)[i + 1] == Run(n, StopMove)
  {
    var front := Runs(n, d[..|d| - 1], true);
    if i < |front| {
      RunsStop(n, d[..|d| - 1], i);
    }
  }

  /** In the log of any session, each direction command that a RelativeMove emits is immediately
      followed by the stop command. */
  lemma RelativeMoveStops(n: PtzSettings, before: seq<Request>, move: Option<Move>, after: seq<Request>, i: nat)
    requires i < |Emitted(n, Relative(move))| && Moves(Emitted(n, Relative(move))[i].action)
    ensures var log, at := SessionLog(n, before + [Relative(move)] + after), |SessionLog(n, before)| + i;
            at + 1 < |log| && log[at] == Emitted(n, Relative(move))[i] && log[at + 1] == Run(n, StopMove)
  {
    hide SessionLog, Runs, Directions;
    var requests := before + [Relative(move)] + after;
    assert requests[..|before|] == before && requests[|before|] == Relative(move);
    SessionParts(n, requests, |before|);
    RunsStop(n, Directions(move), i);
    var upTo, at := SessionLog(n, before) + Emitted(n, Relative(move)), |SessionLog(n, before)| + i;
    assert upTo <= SessionLog(n, requests);
    assert upTo[at] == SessionLog(n, requests)[at] && upTo[at + 1] == SessionLog(n, requests)[at + 1];
  }

  // ------------------------------------------------- is the camera left moving?

  // A command that is not configured is empty text, which the shell ignores.
  predicate StartsMotion(c: Command) { Moves(c.action) && c.text != "" }
  predicate EndsMotion(c: Command) { c.action.StopMove? && c.text != "" }

  /** Whether the camera moves after the commands. */
  function Moving(log: seq<Command>): bool {
    log != [] &&
    (StartsMotion(log[|log| - 1]) || (!EndsMotion(log[|log| - 1]) && Moving(log[..|log| - 1])))
  }

  /** It moves exactly when a direction command has no stop command behind it. */
  lemma {:induction false} MovingMeaning(log: seq<Command>)
    ensures Moving(log) <==> exists i :: 0 <= i < |log| && StartsMotion(log[i])
                                         && forall j | i < j < |log| :: !EndsMotion(log[j])
  {
    if log != [] {
      var front, last := log[..|log| - 1], log[|log| - 1];
      MovingMeaning(front);
      if StartsMotion(last) {
        assert StartsMotion(log[|log| - 1]);
      } else if !EndsMotion(last) && Moving(front) {
        var i :| 0 <= i < |front| && StartsMotion(front[i]) && forall j | i < j < |front| :: !EndsMotion(front[j]);
        assert StartsMotion(log[i]);
        assert forall j | i < j < |front| :: log[j] == front[j];
      }
      if i :| 0 <= i < |log| && StartsMotion(log[i]) && forall j | i < j < |log| :: !EndsMotion(log[j]) {
        if i < |front| {
          assert StartsMotion(front[i]);
          assert forall j | i < j < |front| :: log[j] == front[j];
          assert !EndsMotion(log[|log| - 1]);
        }
      }
    }
  }

  /** Is one of the directions configured? */
  predicate Configured(n: PtzSettings, d: seq<Action>) {
    exists a | a in d :: TextOf(n, a) != ""
  }

  /** The request asks for a direction that is configured. */
  predicate AsksToMove(n: PtzSettings, r: Request) {
    (r.Continuous? || r.Relative?) && Configured(n, Directions(r.move))
  }

  /** The request emits a stop. */
  predicate EmitsStop(r: Request) {
    r.Halt? || (r.Relative? && Directions(r.move) != [])
  }

  lemma ConfiguredSnoc(n: PtzSettings, d: seq<Action>, a: Action)
    ensures Configured(n, d + [a]) <==> Configured(n, d) || TextOf(n, a) != ""
    ensures !Configured(n, [])
  {
    assert a in d + [a];
    assert forall b | b in d :: b in d + [a];
  }

  lemma RunsMeaning(n: PtzSettings, a: Action)
    ensures Moves(a) ==> !EndsMotion(Run(n, a)) && (StartsMotion(Run(n, a)) <==> TextOf(n, a) != "")
    ensures !StartsMotion(Run(n, StopMove)) && (EndsMotion(Run(n, StopMove)) <==> n.moveStop != "")
  {
  }

  lemma {:induction false} MovingRuns(n: PtzSettings, log: seq<Command>, d: seq<Action>, stopping: bool)
    requires forall a | a in d :: Moves(a)
    ensures Moving(log + Runs(n, d, stopping)) <==>
            if d == [] then Moving(log)
            else if stopping && n.moveStop != "" then false
            else Moving(log) || Configured(n, d)
  {
    hide *;
    if d == [] {
      NoRuns(n);
      assert log + [] == log;
    } else {
      var front, a := d[..|d| - 1], d[|d| - 1];
      assert d == front + [a];
      MovingRuns(n, log, front, stopping);
      ConfiguredSnoc(n, front, a);
      RunsMeaning(n, a);
      RunsSnoc(n, front, a, stopping);
      var before := log + Runs(n, front, stopping);
      var after := before + [Run(n, a)];
      MovingSnoc(before, Run(n, a));
      MovingSnoc(after, Run(n, StopMove));
      assert log + Runs(n, d, stopping) == if stopping then after + [Run(n, StopMove)] else after;
    }
  }

  lemma MovingSnoc(log: seq<Command>, c: Command)
    ensures Moving(log + [c]) <==> StartsMotion(c) || (!EndsMotion(c) && Moving(log))
  {
    assert (log + [c])[..|log|] == log;
  }

  /** The effect of one request. */
  lemma MovingEmitted(n: PtzSettings, log: seq<Command>, r: Request)
    ensures Moving(log + Emitted(n, r)) <==>
            if n.moveStop != "" && EmitsStop(r) then false
            else Moving(log) || AsksToMove(n, r)
  {
    hide Runs, Directions, ReplaceFirst, Moving;
    assert log + [] == log;
    match r
    case Continuous(move) => MovingRuns(n, log, Directions(move), false);
    case Relative(move) => MovingRuns(n, log, Directions(move), true);
    case Halt => MovingSnoc(log, Run(n, StopMove));
    case Preset(tokens) =>
      if Emitted(n, r) != [] { MovingSnoc(log, Emitted(n, r)[0]); }
    case Home(profile) =>
      if Emitted(n, r) != [] { MovingSnoc(log, Emitted(n, r)[0]); }
  }

  /** Request k has started a motion that no later request has stopped. */
  ghost predicate Unstopped(n: PtzSettings, requests: seq<Request>, k: int) {
    0 <= k < |requests| && AsksToMove(n, requests[k])
    && (n.moveStop != "" ==> forall j | k <= j < |requests| :: !EmitsStop(requests[j]))
  }

  /** After any session the camera is left moving exactly when some request asked for a configured
      direction and, where a stop command is configured, neither it nor any later one emitted it. */
  lemma {:induction false} LeftMovingIff(n: PtzSettings, requests: seq<Request>)
    ensures Moving(SessionLog(n, requests)) <==> exists k :: Unstopped(n, requests, k)
  {
    hide AsksToMove, EmitsStop, Emitted;
    if requests != [] {
      var front, r := requests[..|requests| - 1], requests[|requests| - 1];
      LeftMovingIff(n, front);
      MovingEmitted(n, SessionLog(n, front), r);
      hide Moving;
      if k :| Unstopped(n, requests, k) {
        if k < |front| {
          assert forall j | k <= j < |front| :: front[j] == requests[j];
          assert Unstopped(n, front, k);
        }
      }
      if Moving(SessionLog(n, requests)) {
        if Moving(SessionLog(n, front)) {
          var k :| Unstopped(n, front, k);
          assert forall j | k <= j < |front| :: front[j] == requests[j];
          assert Unstopped(n, requests, k);
        } else {
          assert Unstopped(n, requests, |front|);
        }
      }
    }
  }

  /** With a stop command configured only a ContinuousMove can leave the camera moving; without one,
      every move that asks for a configured direction does. */
  lemma OnlyContinuousLeavesMoving(n: PtzSettings, requests: seq<Request>)
    ensures n.moveStop != "" ==>
      (Moving(SessionLog(n, requests)) <==>
       exists k :: 0 <= k < |requests| && requests[k].Continuous? && AsksToMove(n, requests[k])
                   && forall j | k < j < |requests| :: !EmitsStop(requests[j]))
    ensures n.moveStop == "" ==>
      (Moving(SessionLog(n, requests)) <==> exists k :: 0 <= k < |requests| && AsksToMove(n, requests[k]))
  {
    hide Moving, SessionLog, Directions;
    LeftMovingIff(n, requests);
    if k :| Unstopped(n, requests, k) {
      assert AsksToMove(n, requests[k]);
    }
    if n.moveStop != "" {
      if k :| 0 <= k < |requests| && requests[k].Continuous? && AsksToMove(n, requests[k])
              && forall j | k < j < |requests| :: !EmitsStop(requests[j]) {
        assert Unstopped(n, requests, k);
      }
    } else if k :| 0 <= k < |requests| && AsksToMove(n, requests[k]) {
      assert Unstopped(n, requests, k);
    }
  }
}
