/** The sprite-sheet extractor: grid snapping and screen/sheet coordinate
    arithmetic, the drag-selection and sprite-list state changed by input
    events, and the record <-> JSON object mapping of the sidecar file.
    Drawing, file access and PNG export are not modelled. */
module Extractor {
  import opened Wrappers
  import Text

  /** The sheet is shown magnified SCALE times. */
  const SCALE: int := 3
  /** Snapping granularity, in sheet pixels. */
  const GRID_SIZE: int := 16

  /** A pixel position (screen or sheet), as Python's (x, y) tuple. */
  type Point = (int, int)

  /** snap_to_grid: round down to a multiple of GRID_SIZE when snapping is on.
      Python's `//` floors; Dafny's `/` agrees with it for a positive divisor. */
  function SnapToGrid(value: int, snap: bool): (r: int)
    ensures snap ==> r % GRID_SIZE == 0 && r <= value < r + GRID_SIZE
    ensures !snap ==> r == value
  {
    if snap then (value / GRID_SIZE) * GRID_SIZE else value
  }

  /** Snapping an already snapped value changes nothing. */
  lemma SnapIdempotent(value: int, snap: bool)
    ensures SnapToGrid(SnapToGrid(value, snap), snap) == SnapToGrid(value, snap)
  {
  }

  /** screen_to_sheet_coords: the sheet pixel under a screen pixel. */
  function ScreenToSheet(pos: Point): (q: Point)
    ensures SCALE * q.0 <= pos.0 < SCALE * q.0 + SCALE
    ensures SCALE * q.1 <= pos.1 < SCALE * q.1 + SCALE
  {
    (pos.0 / SCALE, pos.1 / SCALE)
  }

  /** sheet_to_screen_coords: the top-left screen pixel of a sheet pixel. */
  function SheetToScreen(pos: Point): (r: Point)
    ensures r.0 % SCALE == 0 && r.1 % SCALE == 0
    ensures ScreenToSheet(r) == pos
  {
    (pos.0 * SCALE, pos.1 * SCALE)
  }

  /** Going to the screen and back returns the sheet position; the other way
      round lands on the sheet-pixel corner at most SCALE - 1 above and to
      the left of the screen position. */
  lemma CoordinatesRoundTrip(sheet: Point, screen: Point)
    ensures ScreenToSheet(SheetToScreen(sheet)) == sheet
    ensures var back := SheetToScreen(ScreenToSheet(screen));
      screen.0 - (SCALE - 1) <= back.0 <= screen.0 && screen.1 - (SCALE - 1) <= back.1 <= screen.1
  {
  }

  /** A selected rectangle in sheet pixels (also the saved record's geometry). */
  datatype Rect = Rect(x: int, y: int, w: int, h: int)

  function Min(a: int, b: int): int {
    if a <= b then a else b
  }

  function Abs(a: int): int {
    if a < 0 then -a else a
  }

  /** The min/abs normalisation of two corners: the top-left corner and a
      non-negative size whose far edges are the other corner. */
  function Normalize(c1: Point, c2: Point): (r: Rect)
    ensures r.w >= 0 && r.h >= 0
    ensures r.x <= c1.0 && r.x <= c2.0 && r.y <= c1.1 && r.y <= c2.1
    ensures {r.x, r.x + r.w} == {c1.0, c2.0} && {r.y, r.y + r.h} == {c1.1, c2.1}
  {
    Rect(Min(c1.0, c2.0), Min(c1.1, c2.1), Abs(c2.0 - c1.0), Abs(c2.1 - c1.1))
  }

  /** The rectangle does not depend on which corner the drag started from. */
  lemma NormalizeSymmetric(c1: Point, c2: Point)
    ensures Normalize(c1, c2) == Normalize(c2, c1)
  {
  }

  /** The current selection, from its two screen corners, in sheet pixels. */
  function Selection(start: Point, current: Point): (r: Rect)
    ensures r == Normalize(ScreenToSheet(current), ScreenToSheet(start))
  {
    Normalize(ScreenToSheet(start), ScreenToSheet(current))
  }

  /** One saved sprite: the (name, x, y, w, h) tuple. */
  datatype Record = Record(name: string, x: int, y: int, w: int, h: int)

  /** The name given to the sprite saved at position `n`: "sprite_" and `n`
      zero-padded to three digits. */
  function SpriteName(n: nat): string {
    "sprite_" + Text.PaddedDecimal(n, 3)
  }

  /** The name is "sprite_" and the numeral of the position padded to three
      digits (exactly three below 1000), which reads back as the position. */
  lemma SpriteNameFormat(n: nat)
    ensures var r := SpriteName(n);
      var k := |Text.Decimal(n)|;
      |r| == 7 + (if k < 3 then 3 else k) && r[..7] == "sprite_"
      && Text.AllDigits(r[7..]) && Text.Value(r[7..]) == n
    ensures n < 1000 ==> |SpriteName(n)| == 10
  {
    Text.PaddedDecimalValue(n, 3);
    if n < 1000 {
      Text.DecimalShort(n);
    }
    assert SpriteName(n)[7..] == Text.PaddedDecimal(n, 3);
  }

  /** Distinct positions give distinct names (so distinct PNG files). */
  lemma SpriteNameInjective(i: nat, j: nat)
    ensures SpriteName(i) == SpriteName(j) <==> i == j
  {
    if SpriteName(i) == SpriteName(j) {
      SpriteNameFormat(i);
      SpriteNameFormat(j);
    }
  }

  /** Every record carries the name of its own position in the list. */
  predicate NamesIndexed(sprites: seq<Record>) {
    forall i :: 0 <= i < |sprites| ==> sprites[i].name == SpriteName(i)
  }

  // ---------------------------------------------------------------------
  // Input events and the editor state they change

  datatype Key =
    | Escape
    | Return
    | KeyS
    | KeyG
    | KeyC(answer: string)  // the answer typed at the "Clear all sprites?" prompt
    | KeyD
    | OtherKey

  datatype Event =
    | Quit
    | KeyDown(key: Key)
    | MouseDown(pos: Point)
    | MouseUp(pos: Point)
    | MouseMotion(pos: Point)
    | OtherEvent

  /** The answer counts as a yes when it lower-cases to "y". */
  predicate Confirms(answer: string) {
    answer == "y" || answer == "Y"
  }

  /** The editor's state: the drag corners, the sprite list and the
      snapping switch (the module-level SNAP_TO_GRID). */
  datatype Editor = Editor(startPos: Option<Point>, currentPos: Option<Point>,
                           sprites: seq<Record>, snap: bool)

  /** A screen position moved to the screen corner of its (snapped) sheet pixel. */
  function SnapPosition(pos: Point, snap: bool): Point {
    var q := ScreenToSheet(pos);
    SheetToScreen((SnapToGrid(q.0, snap), SnapToGrid(q.1, snap)))
  }

  /** Enter with both corners set: append the selection under the next name
      and clear the corners. */
  function SaveSelection(s: Editor): Editor
    requires s.startPos.Some? && s.currentPos.Some?
  {
    var r := Selection(s.startPos.value, s.currentPos.value);
    Editor(None, None, s.sprites + [Record(SpriteName(|s.sprites|), r.x, r.y, r.w, r.h)], s.snap)
  }

  /** One event of handle_events: the new state, and false when the event
      ends the program. `width` is the on-screen width of the sheet. */
  function Handle(s: Editor, width: int, e: Event): (r: (Editor, bool))
    ensures r.1 <==> e != Quit && e != KeyDown(Escape)
    ensures !r.1 ==> r.0 == s
  {
    match e
    case Quit => (s, false)
    case KeyDown(key) =>
      (match key
       case Escape => (s, false)
       case Return =>
         if s.startPos.Some? && s.currentPos.Some? then (SaveSelection(s), true) else (s, true)
       case KeyS => (s, true)
       case KeyG => (s.(snap := !s.snap), true)
       case KeyC(answer) =>
         if |s.sprites| > 0 && Confirms(answer) then (s.(sprites := []), true) else (s, true)
       case KeyD =>
         if |s.sprites| > 0 then (s.(sprites := s.sprites[..|s.sprites| - 1]), true) else (s, true)
       case OtherKey => (s, true))
    case MouseDown(pos) =>
      if pos.0 < width then (s.(startPos := Some(SnapPosition(pos, s.snap))), true) else (s, true)
    case MouseUp(pos) =>
      if s.startPos.Some? then (s.(currentPos := Some(pos)), true) else (s, true)
    case MouseMotion(pos) =>
      if s.startPos.Some? then (s.(currentPos := Some(SnapPosition(pos, s.snap))), true) else (s, true)
    case OtherEvent => (s, true)
  }

  /** Only Enter, D and C touch the list, and only G the snapping switch. */
  lemma HandleFrame(s: Editor, width: int, e: Event)
    ensures var t := Handle(s, width, e).0;
      (t.sprites != s.sprites ==> e == KeyDown(Return) || e == KeyDown(KeyD) || (e.KeyDown? && e.key.KeyC?))
      && (t.snap != s.snap ==> e == KeyDown(KeyG))
  {
  }

  /** Enter saves only with both corners set; it then appends exactly one
      record, named after the old list length, keeps the earlier records and
      clears both corners. */
  lemma EnterSavesSelection(s: Editor, width: int)
    ensures var (t, running) := Handle(s, width, KeyDown(Return));
      running && t.snap == s.snap
      && (s.startPos.None? || s.currentPos.None? ==> t == s)
      && (s.startPos.Some? && s.currentPos.Some? ==>
            |t.sprites| == |s.sprites| + 1 && t.sprites[..|s.sprites|] == s.sprites
            && t.sprites[|s.sprites|].name == SpriteName(|s.sprites|)
            && t.startPos.None? && t.currentPos.None?)
  {
    if s.startPos.Some? && s.currentPos.Some? {
      var t := SaveSelection(s);
      assert t.sprites[..|s.sprites|] == s.sprites;
    }
  }

  /** The saved record holds the normalised selection in sheet pixels. */
  lemma EnterRecordGeometry(s: Editor, width: int)
    requires s.startPos.Some? && s.currentPos.Some?
    ensures var t := Handle(s, width, KeyDown(Return)).0;
      var r := Selection(s.startPos.value, s.currentPos.value);
      var rec := t.sprites[|t.sprites| - 1];
      rec.x == r.x && rec.y == r.y && rec.w == r.w && rec.h == r.h && rec.w >= 0 && rec.h >= 0
  {
  }

  /** D drops only the last record, and does nothing to an empty list. */
  lemma DeleteDropsLast(s: Editor, width: int)
    ensures var (t, running) := Handle(s, width, KeyDown(KeyD));
      running && t.startPos == s.startPos && t.currentPos == s.currentPos && t.snap == s.snap
      && (|s.sprites| == 0 ==> t.sprites == [])
      && (|s.sprites| > 0 ==> |t.sprites| == |s.sprites| - 1 && s.sprites == t.sprites + [s.sprites[|s.sprites| - 1]])
  {
  }

  /** G flips the snapping switch and changes nothing else, so pressing it
      twice restores the state. */
  lemma ToggleTwice(s: Editor, width: int)
    ensures Handle(s, width, KeyDown(KeyG)) == (s.(snap := !s.snap), true)
    ensures Handle(Handle(s, width, KeyDown(KeyG)).0, width, KeyDown(KeyG)).0 == s
  {
  }

  /** C empties the list only when there is something to clear and the
      answer is yes. */
  lemma ClearNeedsConfirmation(s: Editor, width: int, answer: string)
    ensures var t := Handle(s, width, KeyDown(KeyC(answer))).0;
      t.sprites == (if |s.sprites| > 0 && Confirms(answer) then [] else s.sprites)
      && t.startPos == s.startPos && t.currentPos == s.currentPos && t.snap == s.snap
  {
  }

  /** `corner` is the screen corner of the sheet pixel under `pos`, or, with
      snapping on, of the top-left pixel of the grid cell holding it. */
  predicate PixelCorner(corner: Point, pos: Point, snap: bool) {
    var q := ScreenToSheet(corner);
    var pointed := ScreenToSheet(pos);
    SheetToScreen(q) == corner
    && (!snap ==> q == pointed)
    && (snap ==> q.0 % GRID_SIZE == 0 && q.1 % GRID_SIZE == 0
                 && q.0 <= pointed.0 < q.0 + GRID_SIZE && q.1 <= pointed.1 < q.1 + GRID_SIZE)
  }

  /** A press right of the sheet is ignored; otherwise only the start corner
      changes, to the corner of the pointed pixel or grid cell. */
  lemma MouseDownStartsSnapped(s: Editor, width: int, pos: Point)
    ensures var t := Handle(s, width, MouseDown(pos)).0;
      (pos.0 >= width ==> t == s)
      && (pos.0 < width ==>
            t.startPos.Some? && t == s.(startPos := t.startPos)
            && PixelCorner(t.startPos.value, pos, s.snap))
  {
    if pos.0 < width {
      var q := ScreenToSheet(pos);
      var snapped := (SnapToGrid(q.0, s.snap), SnapToGrid(q.1, s.snap));
      CoordinatesRoundTrip(snapped, pos);
    }
  }

  /** Release and motion only act once a drag has started; release keeps
      the raw position, motion moves the current corner to the corner of
      the pointed pixel or grid cell. Nothing else changes. */
  lemma DragUpdatesCurrent(s: Editor, width: int, pos: Point)
    ensures s.startPos.None? ==>
      Handle(s, width, MouseUp(pos)).0 == s && Handle(s, width, MouseMotion(pos)).0 == s
    ensures s.startPos.Some? ==>
      Handle(s, width, MouseUp(pos)).0 == s.(currentPos := Some(pos))
    ensures s.startPos.Some? ==>
      var t := Handle(s, width, MouseMotion(pos)).0;
      t.currentPos.Some? && t == s.(currentPos := t.currentPos)
      && PixelCorner(t.currentPos.value, pos, s.snap)
  {
    var q := ScreenToSheet(pos);
    var snapped := (SnapToGrid(q.0, s.snap), SnapToGrid(q.1, s.snap));
    CoordinatesRoundTrip(snapped, pos);
  }

  /** Every event keeps each record named after its position. */
  lemma HandleKeepsNamesIndexed(s: Editor, width: int, e: Event)
    requires NamesIndexed(s.sprites)
    ensures NamesIndexed(Handle(s, width, e).0.sprites)
  {
    var t := Handle(s, width, e).0;
    HandleFrame(s, width, e);
    if e == KeyDown(Return) {
      if s.startPos.Some? && s.currentPos.Some? {
        assert t == SaveSelection(s);
        assert forall i :: 0 <= i < |s.sprites| ==> t.sprites[i] == s.sprites[i];
      }
    } else if e == KeyDown(KeyD) {
      if |s.sprites| > 0 {
        assert t.sprites == s.sprites[..|s.sprites| - 1];
      }
    } else if e.KeyDown? && e.key.KeyC? {
      assert t.sprites == s.sprites || t.sprites == [];
    }
  }

  /** handle_events: the events of one frame in order; a quit stops the
      processing and the remaining events are dropped. */
  function HandleAll(s: Editor, width: int, events: seq<Event>): (r: (Editor, bool))
    ensures r.0.snap != s.snap ==> exists i :: 0 <= i < |events| && events[i] == KeyDown(KeyG)
    decreases |events|
  {
    if events == [] then (s, true)
    else
      HandleFrame(s, width, events[0]);
      var (t, running) := Handle(s, width, events[0]);
      if running then HandleAll(t, width, events[1..]) else (t, false)
  }

  /** A frame keeps running exactly when none of its events asks to quit. */
  lemma {:induction false} HandleAllRunning(s: Editor, width: int, events: seq<Event>)
    ensures HandleAll(s, width, events).1 <==>
      forall i :: 0 <= i < |events| ==> events[i] != Quit && events[i] != KeyDown(Escape)
    decreases |events|
  {
    if events != [] {
      var (t, running) := Handle(s, width, events[0]);
      if running {
        HandleAllRunning(t, width, events[1..]);
        assert forall i :: 1 <= i < |events| ==> events[i] == events[1..][i - 1];
      }
    }
  }

  /** The list invariant holds across a whole frame. */
  lemma {:induction false} HandleAllKeepsNamesIndexed(s: Editor, width: int, events: seq<Event>)
    requires NamesIndexed(s.sprites)
    ensures NamesIndexed(HandleAll(s, width, events).0.sprites)
    decreases |events|
  {
    if events != [] {
      HandleKeepsNamesIndexed(s, width, events[0]);
      var (t, running) := Handle(s, width, events[0]);
      if running {
        HandleAllKeepsNamesIndexed(t, width, events[1..]);
      }
    }
  }

  // ---------------------------------------------------------------------
  // The JSON sidecar file: records as objects with keys name, x, y, w, h

  datatype Json = JString(str: string) | JInt(num: int)

  type JsonObject = map<string, Json>

  const RECORD_KEYS: set<string> := {"name", "x", "y", "w", "h"}

  /** save_sprite_data: the object written for one record. */
  function ToJson(r: Record): (o: JsonObject)
    ensures o.Keys == RECORD_KEYS
  {
    map["name" := JString(r.name), "x" := JInt(r.x), "y" := JInt(r.y), "w" := JInt(r.w), "h" := JInt(r.h)]
  }

  /** load_sprite_data: the record read from one object; a missing key (or a
      value of the wrong kind) makes the load fail. Other keys are ignored. */
  function FromJson(o: JsonObject): (r: Option<Record>)
    ensures r.Some? ==> RECORD_KEYS <= o.Keys
    ensures (RECORD_KEYS <= o.Keys && o["name"].JString? && o["x"].JInt? && o["y"].JInt?
             && o["w"].JInt? && o["h"].JInt?) ==> r.Some?
    ensures r.Some? ==>
              o["name"] == JString(r.value.name) && o["x"] == JInt(r.value.x)
              && o["y"] == JInt(r.value.y) && o["w"] == JInt(r.value.w) && o["h"] == JInt(r.value.h)
  {
    if "name" in o && o["name"].JString? && "x" in o && o["x"].JInt? && "y" in o && o["y"].JInt?
       && "w" in o && o["w"].JInt? && "h" in o && o["h"].JInt?
    then Some(Record(o["name"].str, o["x"].num, o["y"].num, o["w"].num, o["h"].num))
    else None
  }

  /** Reading back a written object gives the record; reading an object and
      writing the record back gives the object without its extra keys. */
  lemma JsonRecordRoundTrip(r: Record, o: JsonObject)
    ensures FromJson(ToJson(r)) == Some(r)
    ensures FromJson(o).Some? ==> ToJson(FromJson(o).value) == map k | k in o && k in RECORD_KEYS :: o[k]
  {
  }

  /** save_sprite_data: the array written for the whole list. */
  function ToJsonList(sprites: seq<Record>): (data: seq<JsonObject>)
    ensures |data| == |sprites|
    ensures forall i :: 0 <= i < |data| ==> data[i].Keys == RECORD_KEYS
  {
    seq(|sprites|, i requires 0 <= i < |sprites| => ToJson(sprites[i]))
  }

  /** load_sprite_data: the list read from the array; it fails when any
      object fails. */
  function FromJsonList(data: seq<JsonObject>): (r: Option<seq<Record>>)
    ensures r.Some? ==> |r.value| == |data|
    ensures r.Some? <==> forall i :: 0 <= i < |data| ==> FromJson(data[i]).Some?
    ensures r.Some? ==> forall i :: 0 <= i < |data| ==> FromJson(data[i]) == Some(r.value[i])
  {
    if data == [] then Some([])
    else
      match FromJson(data[0])
      case None => None
      case Some(rec) =>
        match FromJsonList(data[1..])
        case None => None
        case Some(rest) => Some([rec] + rest)
  }

  /** The saved file loads back as the same list of records. */
  lemma {:induction false} SaveLoadRoundTrip(sprites: seq<Record>)
    ensures FromJsonList(ToJsonList(sprites)) == Some(sprites)
  {
    if sprites != [] {
      JsonRecordRoundTrip(sprites[0], map[]);
      assert ToJsonList(sprites)[1..] == ToJsonList(sprites[1..]);
      SaveLoadRoundTrip(sprites[1..]);
      assert [sprites[0]] + sprites[1..] == sprites;
    }
  }

  // ---------------------------------------------------------------------
  // The extractor object

  class SpriteExtractor {
    /** On-screen width of the magnified sheet. */
    const width: int
    var startPos: Option<Point>
    var currentPos: Option<Point>
    var sprites: seq<Record>
    var snapToGrid: bool

    function State(): Editor
      reads this
    {
      Editor(startPos, currentPos, sprites, snapToGrid)
    }

    /** SpriteExtractor(): no drag, snapping on, the sprite list loaded from
        the sidecar file's content (None when there is no file or it cannot
        be parsed). */
    constructor (sheetWidth: nat, saved: Option<seq<JsonObject>>)
      ensures width == sheetWidth * SCALE
      ensures startPos.None? && currentPos.None? && snapToGrid
      ensures sprites == if saved.Some? && FromJsonList(saved.value).Some?
                         then FromJsonList(saved.value).value else []
    {
      width := sheetWidth * SCALE;
      startPos, currentPos := None, None;
      sprites := [];
      snapToGrid := true;
      new;
      LoadSpriteData(saved);
    }

    /** load_sprite_data: replace the list by the file's records; on any
        failure keep it. */
    method LoadSpriteData(saved: Option<seq<JsonObject>>)
      modifies this
      ensures sprites == if saved.Some? && FromJsonList(saved.value).Some?
                         then FromJsonList(saved.value).value else old(sprites)
      ensures startPos == old(startPos) && currentPos == old(currentPos) && snapToGrid == old(snapToGrid)
    {
      if saved.Some? {
        var loaded := FromJsonList(saved.value);
        if loaded.Some? {
          sprites := loaded.value;
        }
      }
    }

    /** save_sprite_data: the JSON array written, which loads back as the
        current list. */
    method SaveSpriteData() returns (data: seq<JsonObject>)
      ensures |data| == |sprites|
      ensures forall i :: 0 <= i < |data| ==> data[i].Keys == RECORD_KEYS
      ensures FromJsonList(data) == Some(sprites)
    {
      data := ToJsonList(sprites);
      SaveLoadRoundTrip(sprites);
    }

    /** One event of handle_events. */
    method HandleEvent(e: Event) returns (running: bool)
      modifies this
      ensures (State(), running) == Handle(old(State()), width, e)
    {
      running := true;
      match e {
        case Quit =>
          running := false;
        case KeyDown(key) =>
          match key {
            case Escape =>
              running := false;
            case Return =>
              if startPos.Some? && currentPos.Some? {
                var r := Selection(startPos.value, currentPos.value);
                var name := SpriteName(|sprites|);
                sprites := sprites + [Record(name, r.x, r.y, r.w, r.h)];
                startPos := None;
                currentPos := None;
              }
            case KeyS =>
            case KeyG =>
              snapToGrid := !snapToGrid;
            case KeyC(answer) =>
              if |sprites| > 0 && Confirms(answer) {
                sprites := [];
              }
            case KeyD =>
              if |sprites| > 0 {
                sprites := sprites[..|sprites| - 1];
              }
            case OtherKey =>
          }
        case MouseDown(pos) =>
          if pos.0 < width {
            var q := ScreenToSheet(pos);
            var x := SnapToGrid(q.0, snapToGrid);
            var y := SnapToGrid(q.1, snapToGrid);
            startPos := Some(SheetToScreen((x, y)));
          }
        case MouseUp(pos) =>
          if startPos.Some? {
            currentPos := Some(pos);
          }
        case MouseMotion(pos) =>
          if startPos.Some? {
            var q := ScreenToSheet(pos);
            var x := SnapToGrid(q.0, snapToGrid);
            var y := SnapToGrid(q.1, snapToGrid);
            currentPos := Some(SheetToScreen((x, y)));
          }
        case OtherEvent =>
      }
    }

    /** handle_events: the queued events in order, stopping at a quit. */
    method HandleEvents(events: seq<Event>) returns (running: bool)
      modifies this
      ensures (State(), running) == HandleAll(old(State()), width, events)
    {
      running := true;
      var i := 0;
      while i < |events| && running
        invariant 0 <= i <= |events|
        invariant running ==> HandleAll(old(State()), width, events) == HandleAll(State(), width, events[i..])
        invariant !running ==> HandleAll(old(State()), width, events) == (State(), false)
      {
        running := HandleEvent(events[i]);
        assert events[i..][1..] == events[i + 1..];
        i := i + 1;
      }
    }
  }
}
