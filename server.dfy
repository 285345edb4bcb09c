/**
 * The per-frame command handler of the signage display. Decoded remote
 * commands wait in a FIFO queue; once per frame the handler drains the
 * queue in arrival order, updates the text queue, the scrolling state and
 * the bingo draw, and publishes one response per command that succeeds.
 *
 * `ApplyCommand` and `Run` are the specification: what one command and a
 * whole queue of commands do to a `Snapshot` of the handler's state and
 * which responses they publish. The class `CommandHandler` is the in-place
 * implementation, proved against them.
 */
module Server {
  import opened Wrappers
  import opened Text
  import BingoDraw

  /** One text item of a preset: its content and how long it is shown, in seconds. */
  datatype TextSource = TextSource(content: string, duration: real)

  /** The display configuration the handler reads (text size, window width, camera offset). */
  datatype Config = Config(textSize: real, windowWidth: real, cameraOffset: real)

  /**
   * The preset catalog: the presets by name, and the order in which the
   * map's keys are iterated (fixed, since the map is never modified).
   */
  datatype PresetManager = PresetManager(presets: map<string, seq<TextSource>>, order: seq<string>)
  {
    ghost predicate Valid()
    {
      && (forall i, j :: 0 <= i < j < |order| ==> order[i] != order[j])
      && (forall name :: name in order <==> name in presets)
    }
  }

  type U32 = x: int | 0 <= x < 0x1_0000_0000

  datatype BingoMethod = Next
  datatype CountdownMethod = Start

  /** The commands a client can send. */
  datatype WsCommand =
    | Bulletin(preset: string, index: U32)
    | Bingo(bingoMethod: BingoMethod)
    | Countdown(countdownMethod: CountdownMethod)
    | ListPresets

  /** The responses published to every connected client. */
  datatype WsResponse =
    | BulletinResponse(prevText: string, nowText: string, nextText: string)
    | BingoResponse(current: int, no: int)
    | CountdownResponse(status: string)
    | PresetListResponse(presets: seq<string>)

  /** The state the handler updates: text queue, scrolling flag and speed, and the bingo draw. */
  datatype Snapshot = Snapshot(
    texts: seq<TextSource>,
    currentPreset: string,
    currentIndex: nat,
    scrolling: bool,
    speed: real,
    draw: seq<int>,
    drawn: nat)

  /** u32::saturating_sub(1). */
  function SaturatingPred(i: nat): nat
  {
    if i == 0 then 0 else i - 1
  }

  /** The content of item i, or the empty string when there is no such item. */
  function ContentAt(texts: seq<TextSource>, i: int): string
  {
    if 0 <= i < |texts| then texts[i].content else ""
  }

  /**
   * The scrolling speed after the item is spawned: static and looping text
   * keep it, a one-shot scroll sets the speed that carries twice its offset
   * plus the window width across in exactly its duration.
   */
  function SpeedAfterSpawn(item: TextSource, config: Config, speed: real): (r: real)
    ensures Classify(item.duration) != OneShot ==> r == speed
    ensures Classify(item.duration) == OneShot ==>
      r * item.duration == TextOffset(item.content, config.textSize, config.windowWidth) * 2.0 + config.windowWidth
  {
    if Classify(item.duration) == OneShot then
      Speed(TextOffset(item.content, config.textSize, config.windowWidth) * 2.0, item.duration, config.windowWidth)
    else
      speed
  }

  /**
   * Switch to the named preset when it differs from the current one and
   * exists. Only the text queue can change; the named preset is current
   * afterwards exactly when it was already current or exists.
   */
  function SwitchPreset(s: Snapshot, catalog: PresetManager, preset: string): (r: Snapshot)
    ensures r.scrolling == s.scrolling && r.speed == s.speed && r.draw == s.draw && r.drawn == s.drawn
    ensures r.currentPreset == preset <==> (preset == s.currentPreset || preset in catalog.presets)
    ensures r.currentPreset != s.currentPreset ==>
      preset in catalog.presets && r.texts == catalog.presets[preset] && r.currentIndex == 0
    ensures r.currentPreset == s.currentPreset ==> r == s
  {
    if s.currentPreset != preset && preset in catalog.presets then
      s.(texts := catalog.presets[preset], currentPreset := preset, currentIndex := 0)
    else
      s
  }

  /**
   * A Bulletin command: switch preset, then show item `index` of the queue
   * if it exists. The bingo draw is untouched; a response is published
   * exactly when the index is valid, and it shows the item now current.
   */
  function ApplyBulletin(s: Snapshot, catalog: PresetManager, config: Config, preset: string, index: nat)
    : (r: (Snapshot, Option<WsResponse>))
    ensures r.0.draw == s.draw && r.0.drawn == s.drawn
    ensures r.0.texts == SwitchPreset(s, catalog, preset).texts
    ensures r.0.currentPreset == SwitchPreset(s, catalog, preset).currentPreset
    ensures r.1.Some? <==> index < |SwitchPreset(s, catalog, preset).texts|
    ensures r.1.Some? ==>
      && r.0.scrolling && r.0.currentIndex == index && r.1.value.BulletinResponse?
      && r.1.value.nowText == r.0.texts[index].content
    ensures r.1.None? ==> r.0 == SwitchPreset(s, catalog, preset)
  {
    var t := SwitchPreset(s, catalog, preset);
    if index < |t.texts| then
      var item := t.texts[index];
      var response := BulletinResponse(
        ContentAt(t.texts, SaturatingPred(index)), item.content, ContentAt(t.texts, index + 1));
      (t.(currentIndex := index, scrolling := true, speed := SpeedAfterSpawn(item, config, t.speed)),
       Some(response))
    else
      (t, None)
  }

  /**
   * A Bingo Next command: only the draw's cursor can move. While balls remain
   * it advances by one and the ball under the old cursor is published with
   * the new count; once exhausted nothing changes and nothing is published.
   */
  function ApplyBingoNext(s: Snapshot): (r: (Snapshot, Option<WsResponse>))
    ensures r.0 == s.(drawn := r.0.drawn)
    ensures r.1.Some? <==> s.drawn < |s.draw|
    ensures r.1.Some? ==> r.0.drawn == s.drawn + 1 && r.1.value == BingoResponse(s.draw[s.drawn], r.0.drawn)
    ensures r.1.None? ==> r.0 == s
  {
    match BingoDraw.Peek(s.draw, s.drawn)
    case Some(number) => (s.(drawn := s.drawn + 1), Some(BingoResponse(number, s.drawn + 1)))
    case None => (s, None)
  }

  /**
   * What one command does to the state, and the response it publishes, if
   * any. Only a Bingo command moves the draw, only a Bulletin command touches
   * the text queue and scrolling state, a response always answers in the
   * command's own kind, and Countdown and ListPresets always answer.
   */
  function ApplyCommand(s: Snapshot, catalog: PresetManager, config: Config, cmd: WsCommand)
    : (r: (Snapshot, Option<WsResponse>))
    ensures !cmd.Bingo? ==> r.0.draw == s.draw && r.0.drawn == s.drawn
    ensures !cmd.Bulletin? ==> r.0 == s.(drawn := r.0.drawn)
    ensures r.1.Some? ==>
      && (cmd.Bulletin? <==> r.1.value.BulletinResponse?)
      && (cmd.Bingo? <==> r.1.value.BingoResponse?)
      && (cmd.Countdown? <==> r.1.value.CountdownResponse?)
      && (cmd.ListPresets? <==> r.1.value.PresetListResponse?)
    ensures cmd.Countdown? || cmd.ListPresets? ==> r.1.Some?
  {
    match cmd
    case Bulletin(preset, index) => ApplyBulletin(s, catalog, config, preset, index)
    case Bingo(Next) => ApplyBingoNext(s)
    case Countdown(Start) => (s, Some(CountdownResponse("started")))
    case ListPresets => (s, Some(PresetListResponse(catalog.order)))
  }

  function Emitted(o: Option<WsResponse>): seq<WsResponse>
  {
    if o.Some? then [o.value] else []
  }

  /** The commands applied one at a time, in order: the final state and the responses in publication order. */
  function Run(s: Snapshot, catalog: PresetManager, config: Config, cmds: seq<WsCommand>)
    : (r: (Snapshot, seq<WsResponse>))
    ensures |r.1| <= |cmds|
    decreases |cmds|
  {
    if cmds == [] then
      (s, [])
    else
      var step := ApplyCommand(s, catalog, config, cmds[0]);
      var rest := Run(step.0, catalog, config, cmds[1..]);
      (rest.0, Emitted(step.1) + rest.1)
  }

  class CommandHandler {
    // The text queue.
    var texts: seq<TextSource>
    var currentPreset: string
    var currentIndex: nat
    // The scrolling state and speed.
    var scrolling: bool
    var speed: real
    // Read-only resources.
    const catalog: PresetManager
    const config: Config
    // The bingo draw, advanced in place.
    const bingo: BingoDraw.BingoState
    // Commands received but not yet applied, oldest first.
    var pending: seq<WsCommand>
    // Every response published so far, oldest first.
    var published: seq<WsResponse>

    ghost predicate Valid()
      reads this, bingo
    {
      bingo.Valid() && catalog.Valid()
    }

    ghost function State(): Snapshot
      reads this, bingo
    {
      Snapshot(texts, currentPreset, currentIndex, scrolling, speed, bingo.numbers, bingo.index)
    }

    /** The handler over resources set up at start-up; nothing queued or published yet. */
    constructor (catalog: PresetManager, config: Config, bingo: BingoDraw.BingoState,
                 texts: seq<TextSource>, currentPreset: string, currentIndex: nat)
      requires catalog.Valid() && bingo.Valid()
      ensures Valid()
      ensures this.catalog == catalog && this.config == config && this.bingo == bingo
      ensures State() == Snapshot(texts, currentPreset, currentIndex, false, 0.0, bingo.numbers, bingo.index)
      ensures pending == [] && published == []
    {
      this.catalog := catalog;
      this.config := config;
      this.bingo := bingo;
      this.texts := texts;
      this.currentPreset := currentPreset;
      this.currentIndex := currentIndex;
      scrolling := false;
      speed := 0.0;
      pending := [];
      published := [];
    }

    /** A connection's reader forwards a decoded command to the queue. */
    method Submit(cmd: WsCommand)
      modifies this`pending
      ensures pending == old(pending) + [cmd]
    {
      pending := pending + [cmd];
    }

    /** A Bulletin command: switch preset if asked, then show the item and publish it with its neighbours. */
    method ShowBulletin(preset: string, index: nat) returns (response: Option<WsResponse>)
      requires Valid()
      modifies this`texts, this`currentPreset, this`currentIndex, this`scrolling, this`speed, this`published
      ensures Valid()
      ensures (State(), response) == ApplyBulletin(old(State()), catalog, config, preset, index)
      ensures published == old(published) + Emitted(response)
    {
      if currentPreset != preset {
        if preset in catalog.presets {
          texts := catalog.presets[preset];
          currentPreset := preset;
          currentIndex := 0;
        }
      }
      if index < |texts| {
        var item := texts[index];
        if item.duration != 0.0 && item.duration < 1000.0 {
          var offset := TextOffset(item.content, config.textSize, config.windowWidth);
          speed := Speed(offset * 2.0, item.duration, config.windowWidth);
        }
        currentIndex := index;
        scrolling := true;
        var prevText := ContentAt(texts, SaturatingPred(index));
        var nextText := ContentAt(texts, index + 1);
        response := Some(BulletinResponse(prevText, item.content, nextText));
        published := published + [response.value];
      } else {
        response := None;
      }
    }

    /** A Bingo Next command: draw a ball and publish it with the count drawn so far. */
    method DrawBall() returns (response: Option<WsResponse>)
      requires Valid()
      modifies this`published, bingo
      ensures Valid()
      ensures (State(), response) == ApplyBingoNext(old(State()))
      ensures published == old(published) + Emitted(response)
    {
      var number := bingo.Next();
      if number.Some? {
        response := Some(BingoResponse(number.value, bingo.index));
        published := published + [response.value];
      } else {
        response := None;
      }
    }

    /** Apply one command and publish its response, if any. */
    method Apply(cmd: WsCommand) returns (response: Option<WsResponse>)
      requires Valid()
      modifies this`texts, this`currentPreset, this`currentIndex, this`scrolling, this`speed, this`published, bingo
      ensures Valid()
      ensures (State(), response) == ApplyCommand(old(State()), catalog, config, cmd)
      ensures published == old(published) + Emitted(response)
      ensures cmd == ListPresets ==>
        response.Some? && response.value.PresetListResponse?
        && forall name :: name in response.value.presets <==> name in catalog.presets
    {
      match cmd {
        case Bulletin(preset, index) =>
          response := ShowBulletin(preset, index);
        case Bingo(Next) =>
          response := DrawBall();
        case Countdown(Start) =>
          response := Some(CountdownResponse("started"));
          published := published + [response.value];
        case ListPresets =>
          response := Some(PresetListResponse(catalog.order));
          published := published + [response.value];
      }
    }

    /** handle_websocket_commands: drain the queue, applying the commands in arrival order. */
    method HandleCommands()
      requires Valid()
      modifies this`texts, this`currentPreset, this`currentIndex, this`scrolling, this`speed, this`published
      modifies this`pending, bingo
      ensures Valid() && pending == []
      ensures State() == Run(old(State()), catalog, config, old(pending)).0
      ensures published == old(published) + Run(old(State()), catalog, config, old(pending)).1
    {
      ghost var goal := Run(State(), catalog, config, pending);
      ghost var start := published;
      while pending != []
        invariant Valid()
        invariant Run(State(), catalog, config, pending).0 == goal.0
        invariant published + Run(State(), catalog, config, pending).1 == start + goal.1
        decreases |pending|
      {
        ghost var before := State();
        ghost var queue := pending;
        ghost var sent := published;
        var command := pending[0];
        pending := pending[1..];
        var response := Apply(command);
        ghost var rest := Run(State(), catalog, config, pending);
        assert Run(before, catalog, config, queue) == (rest.0, Emitted(response) + rest.1);
        assert published + rest.1 == sent + (Emitted(response) + rest.1);
      }
    }
  }
}
