/** Properties of the command handler's specification (`Server.ApplyCommand`, `Server.Run`). */
module ServerProperties {
  import opened Wrappers
  import opened Text
  import opened Server
  import BingoDraw

  /** A Bulletin naming another, existing preset swaps in its items and resets the index, in range or not. */
  lemma BulletinSwitchesToKnownPreset(s: Snapshot, catalog: PresetManager, config: Config, preset: string, index: nat)
    requires preset != s.currentPreset && preset in catalog.presets
    ensures var r := ApplyBulletin(s, catalog, config, preset, index).0;
      && r.texts == catalog.presets[preset]
      && r.currentPreset == preset
      && r.currentIndex == (if index < |catalog.presets[preset]| then index else 0)
  {
  }

  /** A Bulletin naming an unknown preset keeps the queue and resolves the index against it. */
  lemma BulletinUnknownPresetKeepsQueue(s: Snapshot, catalog: PresetManager, config: Config, preset: string, index: nat)
    requires preset !in catalog.presets
    ensures var (r, response) := ApplyBulletin(s, catalog, config, preset, index);
      && r.texts == s.texts && r.currentPreset == s.currentPreset
      && (response.Some? <==> index < |s.texts|)
  {
  }

  /**
   * A Bulletin whose index is valid for the (possibly switched) queue shows
   * that item: it sets the index, activates scrolling and publishes the
   * item with its neighbours. The previous text of item 0 is item 0 itself.
   */
  lemma BulletinInRange(s: Snapshot, catalog: PresetManager, config: Config, preset: string, index: nat)
    requires index < |SwitchPreset(s, catalog, preset).texts|
    ensures var t := SwitchPreset(s, catalog, preset).texts;
      var (r, response) := ApplyBulletin(s, catalog, config, preset, index);
      && r.texts == t && r.currentIndex == index && r.scrolling
      && response.Some? && response.value.BulletinResponse?
      && response.value.nowText == t[index].content
      && response.value.prevText == (if index > 0 then t[index - 1].content else t[index].content)
      && response.value.nextText == (if index + 1 < |t| then t[index + 1].content else "")
  {
  }

  /** A Bulletin whose index is out of range publishes nothing and changes nothing beyond the preset switch. */
  lemma BulletinOutOfRange(s: Snapshot, catalog: PresetManager, config: Config, preset: string, index: nat)
    requires index >= |SwitchPreset(s, catalog, preset).texts|
    ensures ApplyBulletin(s, catalog, config, preset, index) == (SwitchPreset(s, catalog, preset), None)
  {
  }

  /**
   * Static text and looping text leave the scrolling speed alone; a one-shot
   * scroll sets the speed that carries its estimated width plus the window
   * width across in exactly its duration.
   */
  lemma BulletinSpeed(s: Snapshot, catalog: PresetManager, config: Config, preset: string, index: nat)
    requires index < |SwitchPreset(s, catalog, preset).texts|
    ensures var item := SwitchPreset(s, catalog, preset).texts[index];
      var r := ApplyBulletin(s, catalog, config, preset, index).0;
      && (Classify(item.duration) != OneShot ==> r.speed == s.speed)
      && (Classify(item.duration) == OneShot ==>
            r.speed * item.duration
              == TextOffset(item.content, config.textSize, config.windowWidth) * 2.0 + config.windowWidth)
  {
  }

  /** Bingo Next publishes the drawn ball with the count of balls drawn so far; once exhausted, nothing. */
  lemma BingoNextPublishesDraw(s: Snapshot, catalog: PresetManager, config: Config)
    requires s.drawn <= |s.draw| && BingoDraw.IsShuffle(s.draw)
    ensures var (r, response) := ApplyCommand(s, catalog, config, Bingo(Next));
      if s.drawn < |s.draw| then
        && r == s.(drawn := s.drawn + 1)
        && response == Some(BingoResponse(s.draw[s.drawn], s.drawn + 1))
        && 1 <= response.value.current <= 75 && 1 <= response.value.no <= 75
      else
        r == s && response == None
  {
    BingoDraw.ShuffleLength(s.draw);
    BingoDraw.ShuffleInRange(s.draw);
  }

  /** Countdown Start answers "started" and changes no state. */
  lemma CountdownStartChangesNothing(s: Snapshot, catalog: PresetManager, config: Config)
    ensures ApplyCommand(s, catalog, config, Countdown(Start)) == (s, Some(CountdownResponse("started")))
  {
  }

  /** ListPresets changes no state and names every preset exactly once. */
  lemma ListPresetsNamesEveryPreset(s: Snapshot, catalog: PresetManager, config: Config)
    requires catalog.Valid()
    ensures var (r, response) := ApplyCommand(s, catalog, config, ListPresets);
      && r == s && response.Some? && response.value.PresetListResponse?
      && (forall name :: name in response.value.presets <==> name in catalog.presets)
      && (forall i, j :: 0 <= i < j < |response.value.presets| ==>
            response.value.presets[i] != response.value.presets[j])
  {
  }

  /** If the queue after the first command splits, so does the whole queue. */
  lemma SplitsAtStep(s: Snapshot, catalog: PresetManager, config: Config, a: seq<WsCommand>, b: seq<WsCommand>)
    requires a != []
    requires var s1 := ApplyCommand(s, catalog, config, a[0]).0;
      var front := Run(s1, catalog, config, a[1..]);
      Run(s1, catalog, config, a[1..] + b) == (Run(front.0, catalog, config, b).0, front.1 + Run(front.0, catalog, config, b).1)
    ensures var front := Run(s, catalog, config, a);
      var back := Run(front.0, catalog, config, b);
      Run(s, catalog, config, a + b) == (back.0, front.1 + back.1)
  {
    assert (a + b)[0] == a[0] && (a + b)[1..] == a[1..] + b;
    var step := ApplyCommand(s, catalog, config, a[0]);
    var rest := Run(step.0, catalog, config, a[1..]);
    var tail := Run(step.0, catalog, config, a[1..] + b);
    var last := Run(rest.0, catalog, config, b);
    assert Run(s, catalog, config, a) == (rest.0, Emitted(step.1) + rest.1);
    assert Run(s, catalog, config, a + b) == (tail.0, Emitted(step.1) + tail.1);
    assert Emitted(step.1) + (rest.1 + last.1) == (Emitted(step.1) + rest.1) + last.1;
  }

  /** Draining a queue is draining its front part and then the rest: commands take effect in arrival order. */
  lemma {:induction false} RunAppend(s: Snapshot, catalog: PresetManager, config: Config, a: seq<WsCommand>, b: seq<WsCommand>)
    ensures var front := Run(s, catalog, config, a);
      var back := Run(front.0, catalog, config, b);
      Run(s, catalog, config, a + b) == (back.0, front.1 + back.1)
    decreases |a|
  {
    if a == [] {
      assert a + b == b;
      var back := Run(s, catalog, config, b);
      assert Run(s, catalog, config, a) == (s, []);
      assert [] + back.1 == back.1;
    } else {
      RunAppend(ApplyCommand(s, catalog, config, a[0]).0, catalog, config, a[1..], b);
      SplitsAtStep(s, catalog, config, a, b);
    }
  }

  /** A queue of k Bingo Next commands. */
  function NextCommands(k: nat): (cmds: seq<WsCommand>)
    ensures |cmds| == k
  {
    seq(k, _ => Bingo(Next))
  }

  /** The responses to the draws from position `from` on, `count` of them. */
  function DrawResponses(draw: seq<int>, from: nat, count: nat): (rs: seq<WsResponse>)
    requires from + count <= |draw|
    ensures |rs| == count
  {
    seq(count, i requires 0 <= i < count => BingoResponse(draw[from + i], from + i + 1))
  }

  /** The first of a run of draw responses, then the rest. */
  lemma DrawResponsesCons(draw: seq<int>, from: nat, count: nat)
    requires 0 < count && from + count <= |draw|
    ensures DrawResponses(draw, from, count)
         == [BingoResponse(draw[from], from + 1)] + DrawResponses(draw, from + 1, count - 1)
  {
    var rs := DrawResponses(draw, from, count);
    var tail := DrawResponses(draw, from + 1, count - 1);
    forall i | 0 <= i < count - 1 ensures rs[i + 1] == tail[i] {
      assert from + (i + 1) == (from + 1) + i;
    }
  }

  /** The first of k Bingo Next commands, while balls remain, draws the ball under the cursor. */
  lemma NextStepDraws(s: Snapshot, catalog: PresetManager, config: Config, k: nat)
    requires 0 < k && s.drawn < |s.draw|
    ensures var rest := Run(s.(drawn := s.drawn + 1), catalog, config, NextCommands(k - 1));
      Run(s, catalog, config, NextCommands(k)) == (rest.0, [BingoResponse(s.draw[s.drawn], s.drawn + 1)] + rest.1)
  {
    var cmds := NextCommands(k);
    assert cmds[0] == Bingo(Next) && cmds[1..] == NextCommands(k - 1);
    assert ApplyCommand(s, catalog, config, cmds[0])
        == (s.(drawn := s.drawn + 1), Some(BingoResponse(s.draw[s.drawn], s.drawn + 1)));
  }

  /** Once the draw is exhausted a Bingo Next command changes nothing and publishes nothing. */
  lemma NextStepExhausted(s: Snapshot, catalog: PresetManager, config: Config, k: nat)
    requires 0 < k && s.drawn == |s.draw|
    ensures Run(s, catalog, config, NextCommands(k)) == Run(s, catalog, config, NextCommands(k - 1))
  {
    var cmds := NextCommands(k);
    assert cmds[0] == Bingo(Next) && cmds[1..] == NextCommands(k - 1);
    assert ApplyCommand(s, catalog, config, cmds[0]) == (s, None);
    var rest := Run(s, catalog, config, cmds[1..]);
    assert Run(s, catalog, config, cmds) == (rest.0, [] + rest.1);
    assert [] + rest.1 == rest.1;
  }

  /** Once the draw is exhausted, any number of Bingo Next commands change nothing and publish nothing. */
  lemma {:induction false} ExhaustedSession(s: Snapshot, catalog: PresetManager, config: Config, k: nat)
    requires s.drawn == |s.draw|
    ensures Run(s, catalog, config, NextCommands(k)) == (s, [])
    decreases k
  {
    if k > 0 {
      NextStepExhausted(s, catalog, config, k);
      ExhaustedSession(s, catalog, config, k - 1);
    }
  }

  /** k Bingo Next commands draw min(k, remaining) balls, in order, and publish one response per ball. */
  lemma {:induction false} BingoSession(s: Snapshot, catalog: PresetManager, config: Config, k: nat)
    requires s.drawn <= |s.draw|
    ensures var m := if k <= |s.draw| - s.drawn then k else |s.draw| - s.drawn;
      Run(s, catalog, config, NextCommands(k)) == (s.(drawn := s.drawn + m), DrawResponses(s.draw, s.drawn, m))
    decreases k
  {
    if s.drawn == |s.draw| {
      ExhaustedSession(s, catalog, config, k);
      assert DrawResponses(s.draw, s.drawn, 0) == [];
    } else if k == 0 {
      assert DrawResponses(s.draw, s.drawn, 0) == [];
    } else {
      NextStepDraws(s, catalog, config, k);
      BingoSession(s.(drawn := s.drawn + 1), catalog, config, k - 1);
      DrawResponsesCons(s.draw, s.drawn, if k <= |s.draw| - s.drawn then k else |s.draw| - s.drawn);
    }
  }

  /** The ball of a Bingo response; 0 for any other response. */
  function BallOf(r: WsResponse): int
  {
    if r.BingoResponse? then r.current else 0
  }

  /** The balls announced by a sequence of responses, in order. */
  function AnnouncedBalls(rs: seq<WsResponse>): (bs: seq<int>)
    ensures |bs| == |rs| && forall i :: 0 <= i < |rs| ==> bs[i] == BallOf(rs[i])
  {
    seq(|rs|, i requires 0 <= i < |rs| => BallOf(rs[i]))
  }

  /** The 75 responses to the draws of a shuffle announce every ball exactly once, numbered 1..75. */
  lemma ShuffleResponses(draw: seq<int>)
    requires BingoDraw.IsShuffle(draw)
    ensures |draw| == 75
    ensures var rs := DrawResponses(draw, 0, 75);
      && (forall i :: 0 <= i < 75 ==> rs[i].BingoResponse? && rs[i].no == i + 1 && 1 <= rs[i].current <= 75)
      && (forall i, j :: 0 <= i < j < 75 ==> rs[i].current != rs[j].current)
      && (forall v :: 1 <= v <= 75 ==> v in AnnouncedBalls(rs))
  {
    BingoDraw.ShuffleLength(draw);
    BingoDraw.ShuffleInRange(draw);
    BingoDraw.ShuffleDistinct(draw);
    BingoDraw.ShuffleCovers(draw);
    var rs := DrawResponses(draw, 0, 75);
    var balls := AnnouncedBalls(rs);
    forall i | 0 <= i < 75 ensures balls[i] == draw[i] {
      assert rs[i] == BingoResponse(draw[i], i + 1);
    }
    assert balls == draw;
  }

  /**
   * From a fresh shuffle, 75 Bingo Next commands publish 75 responses whose
   * balls are every number 1..75 exactly once, numbered 1..75; a 76th
   * command publishes nothing more.
   */
  lemma FullBingoSession(s: Snapshot, catalog: PresetManager, config: Config)
    requires BingoDraw.IsShuffle(s.draw) && s.drawn == 0
    ensures var rs := Run(s, catalog, config, NextCommands(75)).1;
      && |rs| == 75
      && (forall i :: 0 <= i < 75 ==> rs[i].BingoResponse? && rs[i].no == i + 1 && 1 <= rs[i].current <= 75)
      && (forall i, j :: 0 <= i < j < 75 ==> rs[i].current != rs[j].current)
      && (forall v :: 1 <= v <= 75 ==> v in AnnouncedBalls(rs))
      && Run(s, catalog, config, NextCommands(76)).1 == rs
  {
    ShuffleResponses(s.draw);
    BingoSession(s, catalog, config, 75);
    BingoSession(s, catalog, config, 76);
  }
}
