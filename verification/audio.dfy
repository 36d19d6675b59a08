/**
 * The audio widgets. Every element with a `data-audio-target` attribute names
 * an audio element by id; toggle buttons, progress bars and time labels are
 * bound to the audio they name. The controller keeps what the widgets show in
 * step with the audio's own state, pauses every other audio when one starts,
 * and leaves a progress bar alone while the user is dragging it.
 *
 * Doubles are idealised as reals; NaN and the infinities are `NonFinite`.
 * Each DOM event handler is a method that the host calls.
 */
module AudioWidgets {
  import opened Wrappers
  import opened TimeFormat

  /** The part of an audio element the controller reads and writes. */
  datatype Media = Media(paused: bool, ended: bool, currentTime: real, duration: Num)

  /** What `document.getElementById` finds: an audio element or some other element. */
  datatype Element = AudioElement(media: Media) | OtherElement

  /** An element carrying `data-audio-target`, with the widget markers it also carries. */
  datatype Widget = Widget(target: string, toggle: bool, progress: bool, time: bool)

  datatype Kind = Toggle | Progress | Time

  /** A toggle button's `aria-pressed` state and its label text. */
  datatype ButtonView = ButtonView(pressed: bool, text: string)

  /** A progress bar: the seeking flag, `disabled`, and the value in [0, 1]. */
  datatype Bar = Bar(seeking: bool, disabled: bool, value: real)

  /** The widgets bound to one audio element. */
  datatype Widgets = Widgets(buttons: seq<ButtonView>, bars: seq<Bar>, labels: seq<string>)

  // ---------------------------------------------------------------------------
  // Finding the bindings

  function Targets(page: seq<Widget>): (ts: seq<string>)
    ensures |ts| == |page| && forall i :: 0 <= i < |page| ==> ts[i] == page[i].target
  {
    if page == [] then [] else [page[0].target] + Targets(page[1..])
  }

  /** The position of the first occurrence of `x` in `s`. */
  function FirstIndex(s: seq<string>, x: string): (i: nat)
    requires x in s
    ensures i < |s| && s[i] == x && x !in s[..i]
  {
    if s[0] == x then 0 else 1 + FirstIndex(s[1..], x)
  }

  /**
   * `Array.from(new Set(attrs.filter(Boolean)))`: every non-empty id once, in
   * the order of its first occurrence.
   */
  function UniqueIds(attrs: seq<string>): (ids: seq<string>)
    ensures forall id :: id in ids <==> id in attrs && id != ""
    ensures forall i, j :: 0 <= i < j < |ids| ==> ids[i] != ids[j]
    ensures forall i, j :: 0 <= i < j < |ids| ==> FirstIndex(attrs, ids[i]) < FirstIndex(attrs, ids[j])
  {
    if attrs == [] then []
    else
      var init := attrs[..|attrs| - 1];
      var last := attrs[|attrs| - 1];
      var prefix := UniqueIds(init);
      FirstIndexOfPrefix(attrs, prefix);
      if last == "" || last in prefix then prefix
      else
        assert FirstIndex(attrs, last) == |attrs| - 1 by { FirstIndexOfLast(attrs); }
        prefix + [last]
  }

  /** The ids every widget on the page names, deduplicated (`targetIds`). */
  function TargetIds(page: seq<Widget>): seq<string>
  {
    UniqueIds(Targets(page))
  }

  /**
   * `targetIds` lists an id exactly when it is non-empty and some widget on the
   * page names it, and lists no id twice.
   */
  lemma TargetIdsExact(page: seq<Widget>)
    ensures forall id :: id in TargetIds(page) <==> id != "" && exists i :: 0 <= i < |page| && page[i].target == id
    ensures forall i, j :: 0 <= i < j < |TargetIds(page)| ==> TargetIds(page)[i] != TargetIds(page)[j]
  {
    var ts := Targets(page);
    forall id | id in ts
      ensures exists i :: 0 <= i < |page| && page[i].target == id
    {
      var i :| 0 <= i < |ts| && ts[i] == id;
      assert page[i].target == id;
    }
  }

  /** `audiosById`: the ids whose element is an audio element, with that element. */
  function Resolve(ids: seq<string>, doc: map<string, Element>): (r: map<string, Media>)
    ensures forall id :: id in r <==> id in ids && id in doc && doc[id].AudioElement?
    ensures forall id :: id in r ==> r[id] == doc[id].media
  {
    if ids == [] then map[]
    else
      var rest := Resolve(ids[1..], doc);
      var id := ids[0];
      if id in doc && doc[id].AudioElement? then rest[id := doc[id].media] else rest
  }

  predicate Marks(w: Widget, kind: Kind)
  {
    match kind
    case Toggle => w.toggle
    case Progress => w.progress
    case Time => w.time
  }

  /** How many widgets of a kind name `id` (`[data-audio-toggle][data-audio-target="id"]` and the like). */
  function CountOf(page: seq<Widget>, id: string, kind: Kind): (n: nat)
    ensures n <= |page|
  {
    if page == [] then 0
    else (if page[0].target == id && Marks(page[0], kind) then 1 else 0) + CountOf(page[1..], id, kind)
  }

  // ---------------------------------------------------------------------------
  // Derived widget state

  predicate IsPlaying(m: Media) { !m.paused && !m.ended }

  /** `setButtonState`: pressed and "Pause" while playing, unpressed and "Play" otherwise. */
  function ButtonFor(m: Media): (v: ButtonView)
    ensures v.pressed <==> !m.paused && !m.ended
    ensures v.text == "Pause" <==> v.pressed
    ensures v.text == "Play" <==> !v.pressed
  {
    var playing := IsPlaying(m);
    ButtonView(playing, if playing then "Pause" else "Play")
  }

  /** `isFiniteDuration`. */
  predicate HasDuration(m: Media)
  {
    m.duration.Finite? && m.duration.value > 0.0
  }

  /** `Math.min(Math.max(x, 0), 1)`. */
  function Clamp01(x: real): (r: real)
    ensures 0.0 <= r <= 1.0
    ensures 0.0 <= x <= 1.0 ==> r == x
    ensures x < 0.0 ==> r == 0.0
    ensures x > 1.0 ==> r == 1.0
  {
    var lower := if x > 0.0 then x else 0.0;
    if lower < 1.0 then lower else 1.0
  }

  /** The play ratio: position over duration when the duration is usable, else 0. */
  function Ratio(m: Media): (r: real)
    ensures !HasDuration(m) ==> r == 0.0
    ensures HasDuration(m) && 0.0 <= m.currentTime <= m.duration.value ==> 0.0 <= r <= 1.0
  {
    if HasDuration(m) then m.currentTime / m.duration.value else 0.0
  }

  /** One bar under `syncProgress`: a bar being dragged is skipped. */
  function SyncedBar(b: Bar, m: Media): (r: Bar)
    ensures b.seeking ==> r == b
    ensures !b.seeking ==> !r.seeking && (r.disabled <==> !HasDuration(m))
    ensures !b.seeking ==> 0.0 <= r.value <= 1.0 && r.value == Clamp01(Ratio(m))
  {
    if b.seeking then b else Bar(false, !HasDuration(m), Clamp01(Ratio(m)))
  }

  /**
   * The time label text, `elapsed / total`, with `0:00` as total while the
   * duration is unusable. It reads back as the whole seconds played and the
   * whole seconds of the duration, or 0 as total.
   */
  function TimeText(m: Media): (s: string)
    ensures ParseTimeText(s) ==
      Some((ShownSeconds(Finite(m.currentTime)), if HasDuration(m) then ShownSeconds(m.duration) else 0))
  {
    var a := FormatTime(Finite(m.currentTime));
    var total := if HasDuration(m) then m.duration else NonFinite;
    var b := FormatTime(total);
    FormatTimeHasNoSpace(Finite(m.currentTime));
    FormatTimeHasNoSpace(total);
    SlashFields(a, b);
    FormatTimeRoundTrip(Finite(m.currentTime));
    FormatTimeRoundTrip(total);
    assert b == if HasDuration(m) then FormatTime(m.duration) else "0:00";
    a + " / " + (if HasDuration(m) then FormatTime(m.duration) else "0:00")
  }

  /** `syncButtons` on the widgets of one audio. */
  function ButtonsSynced(w: Widgets, m: Media): (r: Widgets)
    ensures |r.buttons| == |w.buttons|
    ensures forall i :: 0 <= i < |r.buttons| ==> r.buttons[i] == ButtonFor(m)
    ensures r.bars == w.bars && r.labels == w.labels
  {
    w.(buttons := seq(|w.buttons|, _ => ButtonFor(m)))
  }

  /** `syncProgress` on the widgets of one audio. */
  function ProgressSynced(w: Widgets, m: Media): (r: Widgets)
    ensures r.buttons == w.buttons
    ensures |r.bars| == |w.bars| && |r.labels| == |w.labels|
    ensures forall i :: 0 <= i < |w.bars| ==> r.bars[i] == SyncedBar(w.bars[i], m)
    ensures forall i :: 0 <= i < |w.labels| ==> r.labels[i] == TimeText(m)
  {
    w.(bars := seq(|w.bars|, i requires 0 <= i < |w.bars| => SyncedBar(w.bars[i], m)),
       labels := seq(|w.labels|, _ => TimeText(m)))
  }

  /** The widgets show the audio's state: every button, every label, every bar not being dragged. */
  predicate Shows(w: Widgets, m: Media)
  {
    && (forall i :: 0 <= i < |w.buttons| ==> w.buttons[i] == ButtonFor(m))
    && (forall i :: 0 <= i < |w.labels| ==> w.labels[i] == TimeText(m))
    && (forall i :: 0 <= i < |w.bars| ==> w.bars[i] == SyncedBar(w.bars[i], m))
  }

  /**
   * The widgets of `id` as found on the page, before the first synchronisation;
   * `FirstSyncShows` states their counts.
   */
  function Discovered(page: seq<Widget>, id: string): Widgets
  {
    Widgets(seq(CountOf(page, id, Toggle), _ => ButtonView(false, "Play")),
            seq(CountOf(page, id, Progress), _ => Bar(false, false, 0.0)),
            seq(CountOf(page, id, Time), _ => ""))
  }

  // ---------------------------------------------------------------------------
  // Playback state

  /** `audio.pause()`. */
  function Pause(m: Media): (r: Media)
    ensures !IsPlaying(r) && r.paused
    ensures r.ended == m.ended && r.currentTime == m.currentTime && r.duration == m.duration
  {
    m.(paused := true)
  }

  /** A successful `audio.play()`: playing, and an ended audio starts over from 0. */
  function Play(m: Media): (r: Media)
    ensures IsPlaying(r) && r.duration == m.duration
    ensures r.currentTime == if m.ended then 0.0 else m.currentTime
  {
    m.(paused := false, ended := false, currentTime := if m.ended then 0.0 else m.currentTime)
  }

  /** `pauseOthers(current)` on the registry. */
  function PausedExcept(audios: map<string, Media>, current: string): (r: map<string, Media>)
    ensures r.Keys == audios.Keys
    ensures current in audios ==> r[current] == audios[current]
    ensures forall id :: id in r && id != current ==> r[id] == Pause(audios[id])
  {
    map id | id in audios :: if id == current then audios[id] else Pause(audios[id])
  }

  /**
   * A toggle click: play a paused or ended audio after pausing the others; else pause it.
   * A click on an audio that is not playing leaves no other audio playing, and the
   * audio itself plays exactly when its play succeeds; a click on a playing audio
   * pauses it and touches nothing else.
   */
  function Toggled(audios: map<string, Media>, id: string, playResolves: bool): (r: map<string, Media>)
    requires id in audios
    ensures r.Keys == audios.Keys
    ensures IsPlaying(audios[id]) ==>
      r[id] == Pause(audios[id]) && forall a :: a in audios && a != id ==> r[a] == audios[a]
    ensures !IsPlaying(audios[id]) ==>
      (IsPlaying(r[id]) <==> playResolves) &&
      (playResolves ==> r[id] == Play(audios[id])) &&
      (!playResolves ==> r[id] == audios[id]) &&
      forall a :: a in audios && a != id ==> r[a] == Pause(audios[a])
  {
    var m := audios[id];
    if m.paused || m.ended then
      var others := PausedExcept(audios, id);
      if playResolves then others[id := Play(m)] else others
    else audios[id := Pause(m)]
  }

  /**
   * The seek of an `input` event: the position becomes the clamped ratio times
   * the duration, so the play ratio is the clamped ratio, and the audio has
   * ended exactly when that position is the end.
   */
  function Seeked(m: Media, ratio: real): (r: Media)
    requires HasDuration(m)
    ensures r.paused == m.paused && r.duration == m.duration && HasDuration(r)
    ensures 0.0 <= r.currentTime <= m.duration.value
    ensures Ratio(r) == Clamp01(ratio)
    ensures r.ended <==> r.currentTime == m.duration.value
  {
    SeekPosition(m, Clamp01(ratio));
    m.(currentTime := Clamp01(ratio) * m.duration.value, ended := Clamp01(ratio) == 1.0)
  }

  // ---------------------------------------------------------------------------
  // Lemmas

  /** A fraction of a positive duration is the whole duration only when the fraction is 1. */
  lemma EndPosition(c: real, d: real)
    requires 0.0 <= c <= 1.0 && d > 0.0
    ensures 0.0 <= c * d <= d
    ensures c * d == d <==> c == 1.0
  {
  }

  /** Moving to the fraction `c` of a usable duration: the position, the ratio and the end flag agree. */
  lemma SeekPosition(m: Media, c: real)
    requires HasDuration(m) && 0.0 <= c <= 1.0
    ensures var r := m.(currentTime := c * m.duration.value, ended := c == 1.0);
      && HasDuration(r)
      && 0.0 <= r.currentTime <= m.duration.value
      && Ratio(r) == c
      && (r.ended <==> r.currentTime == m.duration.value)
  {
    var d := m.duration.value;
    var r := m.(currentTime := c * d, ended := c == 1.0);
    EndPosition(c, d);
    DivideBack(c, d);
    assert Ratio(r) == (c * d) / d;
  }

  lemma DivideBack(c: real, d: real)
    requires d > 0.0
    ensures c * d / d == c
  {
  }

  /** With a usable duration, the ratio times the duration is the position. */
  lemma RatioScales(m: Media)
    requires HasDuration(m)
    ensures Ratio(m) * m.duration.value == m.currentTime
  {
  }

  lemma {:induction false} FirstIndexOfPrefix(s: seq<string>, prefix: seq<string>)
    requires s != []
    requires forall id :: id in prefix ==> id in s[..|s| - 1]
    ensures forall id :: id in prefix ==> FirstIndex(s, id) == FirstIndex(s[..|s| - 1], id)
  {
    forall id | id in prefix
      ensures FirstIndex(s, id) == FirstIndex(s[..|s| - 1], id)
    {
      FirstIndexOfInit(s, id);
    }
  }

  lemma {:induction false} FirstIndexOfInit(s: seq<string>, x: string)
    requires s != [] && x in s[..|s| - 1]
    ensures FirstIndex(s, x) == FirstIndex(s[..|s| - 1], x)
  {
    if s[0] != x {
      assert s[1..][..|s[1..]| - 1] == s[..|s| - 1][1..];
      FirstIndexOfInit(s[1..], x);
    }
  }

  lemma FirstIndexOfLast(s: seq<string>)
    requires s != [] && s[|s| - 1] !in s[..|s| - 1]
    ensures FirstIndex(s, s[|s| - 1]) == |s| - 1
  {
    var i := FirstIndex(s, s[|s| - 1]);
    assert s[..i] == s[..|s| - 1][..i] || i == |s| - 1;
  }

  /** The first `syncAll` makes the discovered widgets show the audio, with no bar being dragged. */
  lemma FirstSyncShows(page: seq<Widget>, id: string, m: Media)
    ensures var w := ProgressSynced(ButtonsSynced(Discovered(page, id), m), m);
      && |w.buttons| == CountOf(page, id, Toggle)
      && |w.bars| == CountOf(page, id, Progress)
      && |w.labels| == CountOf(page, id, Time)
      && (forall i :: 0 <= i < |w.bars| ==> !w.bars[i].seeking)
      && Shows(w, m)
  {
  }

  /** No widget of the kind names `id` exactly when the count is 0; all of them do exactly when it is the page's length. */
  lemma {:induction false} CountOfBounds(page: seq<Widget>, id: string, kind: Kind)
    ensures CountOf(page, id, kind) == 0 <==>
      forall i :: 0 <= i < |page| ==> !(page[i].target == id && Marks(page[i], kind))
    ensures CountOf(page, id, kind) == |page| <==>
      forall i :: 0 <= i < |page| ==> page[i].target == id && Marks(page[i], kind)
  {
    if page != [] {
      CountOfBounds(page[1..], id, kind);
      assert forall i :: 1 <= i < |page| ==> page[i] == page[1..][i - 1];
    }
  }

  /** `FirstSyncShows` for every bound audio at once. */
  lemma FirstSyncShowsAll(page: seq<Widget>, audios: map<string, Media>, widgets: map<string, Widgets>)
    requires audios.Keys == widgets.Keys
    requires forall id :: id in widgets ==>
      widgets[id] == ProgressSynced(ButtonsSynced(Discovered(page, id), audios[id]), audios[id])
    ensures forall id :: id in widgets ==>
      && |widgets[id].buttons| == CountOf(page, id, Toggle)
      && |widgets[id].bars| == CountOf(page, id, Progress)
      && |widgets[id].labels| == CountOf(page, id, Time)
      && (forall i :: 0 <= i < |widgets[id].bars| ==> !widgets[id].bars[i].seeking)
      && Shows(widgets[id], audios[id])
  {
    forall id | id in widgets
      ensures |widgets[id].buttons| == CountOf(page, id, Toggle)
      ensures |widgets[id].bars| == CountOf(page, id, Progress)
      ensures |widgets[id].labels| == CountOf(page, id, Time)
      ensures forall i :: 0 <= i < |widgets[id].bars| ==> !widgets[id].bars[i].seeking
      ensures Shows(widgets[id], audios[id])
    {
      FirstSyncShows(page, id, audios[id]);
    }
  }

  /** After `pauseOthers(current)`, no audio but `current` is playing. */
  lemma OnlyCurrentPlays(audios: map<string, Media>, current: string, a: string)
    requires a in PausedExcept(audios, current) && IsPlaying(PausedExcept(audios, current)[a])
    ensures a == current
  {
  }

  /**
   * A seek short of the end followed by a click whose play succeeds plays on
   * from the sought position; a seek to the end makes the click start over from 0.
   */
  lemma SeekThenPlay(audios: map<string, Media>, id: string, ratio: real)
    requires id in audios && HasDuration(audios[id]) && audios[id].paused
    ensures var r := Toggled(audios[id := Seeked(audios[id], ratio)], id, true);
      && IsPlaying(r[id])
      && (Clamp01(ratio) < 1.0 ==> r[id].currentTime == Clamp01(ratio) * audios[id].duration.value)
      && (Clamp01(ratio) == 1.0 ==> r[id].currentTime == 0.0)
  {
  }

  /** After a seek, every bar that is not being dragged shows the requested ratio, clamped. */
  lemma SeekShowsRatio(m: Media, ratio: real)
    requires HasDuration(m)
    ensures HasDuration(Seeked(m, ratio))
    ensures Ratio(Seeked(m, ratio)) == Clamp01(ratio)
    ensures SyncedBar(Bar(false, true, 0.0), Seeked(m, ratio)) == Bar(false, false, Clamp01(ratio))
  {
    var d := m.duration.value;
    assert Clamp01(ratio) * d / d == Clamp01(ratio);
  }

  /** The text of a clock is digits and colons only. */
  lemma ClockChars(total: nat)
    ensures forall i :: 0 <= i < |FormatClock(total)| ==> IsDigit(FormatClock(total)[i]) || FormatClock(total)[i] == ':'
  {
  }

  /** The text of `formatTime` contains no space. */
  lemma FormatTimeHasNoSpace(t: Num)
    ensures ' ' !in FormatTime(t)
  {
    if t.Finite? && t.value >= 0.0 {
      ClockChars(t.value.Floor);
    }
  }

  /** Two space-free texts joined by " / " split at the spaces into the first, the slash and the second. */
  lemma SlashFields(a: string, b: string)
    requires ' ' !in a && ' ' !in b
    ensures Fields(a + " / " + b, ' ') == [a, "/", b]
  {
    FieldsCons(a, ' ', "/" + [' '] + b);
    FieldsCons("/", ' ', b);
    FieldsOne(b, ' ');
    assert a + " / " + b == a + [' '] + ("/" + [' '] + b);
  }

  /** Reads an `elapsed / total` label back into its two numbers of seconds. */
  function ParseTimeText(s: string): Option<(nat, nat)>
  {
    var f := Fields(s, ' ');
    if |f| == 3 && f[1] == "/" then
      match (ParseClock(f[0]), ParseClock(f[2]))
      case (Some(a), Some(b)) => Some((a, b))
      case _ => None
    else None
  }


  // ---------------------------------------------------------------------------
  // The controller

  class AudioController {
    /** `audiosById`. */
    var audios: map<string, Media>
    /** The buttons, bars and labels bound to each audio. */
    var widgets: map<string, Widgets>

    ghost predicate Valid()
      reads this
    {
      audios.Keys == widgets.Keys
    }

    /**
     * The page scan: bind every distinct id that resolves to an audio element,
     * clear the seeking flag of every bar and run `syncAll` for each audio.
     * A page whose ids resolve to no audio leaves the controller with nothing bound.
     */
    constructor (page: seq<Widget>, doc: map<string, Element>)
      ensures Valid()
      ensures audios == Resolve(TargetIds(page), doc)
      ensures forall id :: id in widgets ==>
        && |widgets[id].buttons| == CountOf(page, id, Toggle)
        && |widgets[id].bars| == CountOf(page, id, Progress)
        && |widgets[id].labels| == CountOf(page, id, Time)
        && (forall i :: 0 <= i < |widgets[id].bars| ==> !widgets[id].bars[i].seeking)
        && Shows(widgets[id], audios[id])
    {
      audios := Resolve(TargetIds(page), doc);
      widgets := map id | id in Resolve(TargetIds(page), doc) :: Discovered(page, id);
      new;
      SyncEvery(page);
      FirstSyncShowsAll(page, audios, widgets);
    }

    /** The first `syncAll` of every bound audio, on the widgets as discovered on the page. */
    method SyncEvery(ghost page: seq<Widget>)
      requires Valid()
      requires forall id :: id in widgets ==> widgets[id] == Discovered(page, id)
      modifies this
      ensures Valid() && audios == old(audios)
      ensures forall id :: id in widgets ==>
        widgets[id] == ProgressSynced(ButtonsSynced(Discovered(page, id), audios[id]), audios[id])
    {
      var todo := audios.Keys;
      while todo != {}
        invariant todo <= audios.Keys
        invariant Valid() && audios == old(audios)
        invariant forall id :: id in todo ==> widgets[id] == Discovered(page, id)
        invariant forall id :: id in widgets && id !in todo ==>
          widgets[id] == ProgressSynced(ButtonsSynced(Discovered(page, id), audios[id]), audios[id])
        decreases todo
      {
        var id :| id in todo;
        SyncAll(id);
        todo := todo - {id};
      }
    }

    /** `syncButtons`: every button of `id` shows its audio's state. */
    method SyncButtons(id: string)
      requires Valid() && id in audios
      modifies this
      ensures Valid() && audios == old(audios)
      ensures widgets == old(widgets)[id := ButtonsSynced(old(widgets)[id], audios[id])]
    {
      var w, m := widgets[id], audios[id];
      var buttons: seq<ButtonView> := [];
      while |buttons| < |w.buttons|
        invariant |buttons| <= |w.buttons|
        invariant forall i :: 0 <= i < |buttons| ==> buttons[i] == ButtonFor(m)
      {
        buttons := buttons + [ButtonFor(m)];
      }
      assert buttons == ButtonsSynced(w, m).buttons;
      widgets := widgets[id := w.(buttons := buttons)];
    }

    /** `syncProgress`: bars not being dragged and every time label of `id` show its audio's position. */
    method SyncProgress(id: string)
      requires Valid() && id in audios
      modifies this
      ensures Valid() && audios == old(audios)
      ensures widgets == old(widgets)[id := ProgressSynced(old(widgets)[id], audios[id])]
    {
      var w, m := widgets[id], audios[id];
      var hasDuration := HasDuration(m);
      var ratio := if hasDuration then m.currentTime / m.duration.value else 0.0;
      assert hasDuration == HasDuration(m) && ratio == Ratio(m);
      var bars: seq<Bar> := [];
      for i := 0 to |w.bars|
        invariant |bars| == i
        invariant forall j :: 0 <= j < i ==> bars[j] == SyncedBar(w.bars[j], m)
      {
        var bar := w.bars[i];
        if !bar.seeking {
          bar := bar.(disabled := !hasDuration, value := Clamp01(ratio));
        }
        bars := bars + [bar];
      }
      var text := TimeText(m);
      var labels: seq<string> := [];
      for i := 0 to |w.labels|
        invariant |labels| == i
        invariant forall j :: 0 <= j < i ==> labels[j] == text
      {
        labels := labels + [text];
      }
      assert bars == ProgressSynced(w, m).bars;
      assert labels == ProgressSynced(w, m).labels;
      widgets := widgets[id := w.(bars := bars, labels := labels)];
    }

    /** `syncAll`, also the handler of `loadedmetadata`, `durationchange` and `ended`. */
    method SyncAll(id: string)
      requires Valid() && id in audios
      modifies this
      ensures Valid() && audios == old(audios)
      ensures widgets == old(widgets)[id := ProgressSynced(ButtonsSynced(old(widgets)[id], audios[id]), audios[id])]
    {
      SyncButtons(id);
      SyncProgress(id);
    }

    /** `pauseOthers(current)`: pause every registered audio except `current`. */
    method PauseOthers(current: string)
      requires Valid()
      modifies this
      ensures Valid() && widgets == old(widgets)
      ensures audios == PausedExcept(old(audios), current)
    {
      var todo := audios.Keys;
      while todo != {}
        invariant todo <= audios.Keys == old(audios).Keys
        invariant Valid() && widgets == old(widgets)
        invariant forall id :: id in todo ==> audios[id] == old(audios)[id]
        invariant forall id :: id in audios && id !in todo ==> audios[id] == PausedExcept(old(audios), current)[id]
        decreases todo
      {
        var id :| id in todo;
        if id != current {
          audios := audios[id := Pause(audios[id])];
        }
        todo := todo - {id};
      }
    }

    /**
     * A click on a toggle button of `id`. `playResolves` is the outcome of
     * the `play()` promise: false when the host refuses playback.
     */
    method Click(id: string, playResolves: bool)
      requires Valid() && id in audios
      modifies this
      ensures Valid()
      ensures audios == Toggled(old(audios), id, playResolves)
      ensures widgets == old(widgets)[id := ButtonsSynced(old(widgets)[id], audios[id])]
    {
      var m := audios[id];
      if m.paused || m.ended {
        PauseOthers(id);
        if playResolves {
          audios := audios[id := Play(m)];
        }
      } else {
        audios := audios[id := Pause(m)];
      }
      SyncButtons(id);
    }

    /** The `play` event of `id`: pause the others, then resynchronise the buttons of `id`. */
    method OnPlay(id: string)
      requires Valid() && id in audios
      modifies this
      ensures Valid()
      ensures audios == PausedExcept(old(audios), id)
      ensures widgets == old(widgets)[id := ButtonsSynced(old(widgets)[id], audios[id])]
    {
      PauseOthers(id);
      SyncButtons(id);
    }

    /** `startSeek` (mousedown, touchstart) on bar `i` of `id`. */
    method StartSeek(id: string, i: nat)
      requires Valid() && id in audios && i < |widgets[id].bars|
      modifies this
      ensures Valid() && audios == old(audios)
      ensures widgets == old(widgets)[id := old(widgets)[id].(bars := old(widgets)[id].bars[i := old(widgets)[id].bars[i].(seeking := true)])]
    {
      var w := widgets[id];
      widgets := widgets[id := w.(bars := w.bars[i := w.bars[i].(seeking := true)])];
    }

    /** `endSeek` (mouseup, touchend, mouseleave, change) on bar `i` of `id`. */
    method EndSeek(id: string, i: nat)
      requires Valid() && id in audios && i < |widgets[id].bars|
      modifies this
      ensures Valid() && audios == old(audios)
      ensures widgets == old(widgets)[id := old(widgets)[id].(bars := old(widgets)[id].bars[i := old(widgets)[id].bars[i].(seeking := false)])]
    {
      var w := widgets[id];
      widgets := widgets[id := w.(bars := w.bars[i := w.bars[i].(seeking := false)])];
    }

    /**
     * The `input` event of a bar of `id`; `parsed` is `Number.parseFloat` of the
     * bar's value. Without a usable duration or a finite number nothing happens.
     */
    method Input(id: string, parsed: Num)
      requires Valid() && id in audios
      modifies this
      ensures Valid()
      ensures !HasDuration(old(audios)[id]) || parsed.NonFinite? ==>
        audios == old(audios) && widgets == old(widgets)
      ensures HasDuration(old(audios)[id]) && parsed.Finite? ==>
        && audios == old(audios)[id := Seeked(old(audios)[id], parsed.value)]
        && widgets == old(widgets)[id := ProgressSynced(old(widgets)[id], audios[id])]
        && (audios[id].ended <==> audios[id].currentTime == audios[id].duration.value)
    {
      var m := audios[id];
      if !HasDuration(m) {
        return;
      }
      if parsed.NonFinite? {
        return;
      }
      // Assigning `currentTime` moves the position; the audio reports `ended` once the position is the end.
      var position := Clamp01(parsed.value) * m.duration.value;
      audios := audios[id := m.(currentTime := position, ended := position == m.duration.value)];
      EndPosition(Clamp01(parsed.value), m.duration.value);
      assert audios[id] == Seeked(m, parsed.value);
      SyncProgress(id);
    }
  }

  /**
   * Two players "a" and "b", b playing: a click on a's button whose play
   * succeeds, followed by the `play` event of a and the `pause` event of b,
   * leaves a playing and pressed ("Pause") and b paused and unpressed ("Play").
   */
  method TwoPlayers(c: AudioController)
    requires c.Valid() && "a" in c.audios && "b" in c.audios
    requires c.audios["a"].paused && IsPlaying(c.audios["b"])
    modifies c
    ensures c.Valid() && c.audios.Keys == old(c.audios.Keys)
    ensures IsPlaying(c.audios["a"]) && c.audios["b"].paused
    ensures forall i :: 0 <= i < |c.widgets["a"].buttons| ==> c.widgets["a"].buttons[i] == ButtonView(true, "Pause")
    ensures forall i :: 0 <= i < |c.widgets["b"].buttons| ==> c.widgets["b"].buttons[i] == ButtonView(false, "Play")
  {
    c.Click("a", true);
    c.OnPlay("a");
    c.SyncButtons("b");
  }
}
