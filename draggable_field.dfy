/** A field label that can be dragged over the certificate canvas. Pressing
    the mouse on it starts a drag and selects it; window-level mouse moves then
    move it, kept inside the container; releasing the mouse ends the drag and
    reports the new position to the designer. Coordinates are integers. */
module DraggableField {
  import opened Json

  datatype Point = Point(x: int, y: int)

  /** `Math.max(0, Math.min(v, hi))` */
  function Clamp(v: int, hi: int): (r: int)
    ensures hi >= 0 ==> 0 <= r <= hi
    ensures hi < 0 ==> r == 0
  {
    var m := if v < hi then v else hi;
    if 0 > m then 0 else m
  }

  /** Clamping leaves a coordinate already inside the bounds where it is. */
  lemma ClampInside(v: int, hi: int)
    requires 0 <= v <= hi
    ensures Clamp(v, hi) == v
  {
  }

  /** The handler's state: whether a drag is on, the shown position, the
      offset from the cursor to the position taken at mouse down, and the
      position the installed window listeners hold. */
  datatype DragState = DragState(isDragging: bool, pos: Point, dragStart: Point, listenerPos: Point)

  /** What the designer is told on release: field id and new position. */
  datatype Report = Report(id: Value, pos: Point)

  /** The state of a freshly mounted field at (x, y). */
  function Initial(x: int, y: int): (s: DragState)
    ensures !s.isDragging && s.pos == Point(x, y)
  {
    DragState(false, Point(x, y), Point(0, 0), Point(x, y))
  }

  /** The resync effect: the shown position follows the field's stored one. */
  function Resync(s: DragState, x: int, y: int): (r: DragState)
    ensures r.pos == Point(x, y)
    ensures r.isDragging == s.isDragging && r.dragStart == s.dragStart
  {
    s.(pos := Point(x, y))
  }

  /** `handleMouseDown`: the drag starts and the cursor's offset from the
      position is remembered. Listeners are installed by the effect that runs
      when `isDragging` turns on; they hold the position of that render. */
  function Down(s: DragState, client: Point): (r: DragState)
    ensures r.isDragging && r.pos == s.pos
    ensures r.dragStart == Point(client.x - s.pos.x, client.y - s.pos.y)
  {
    DragState(true, s.pos, Point(client.x - s.pos.x, client.y - s.pos.y),
              if s.isDragging then s.listenerPos else s.pos)
  }

  /** `handleMouseMove`: ignored when no drag is on, otherwise the pointer
      minus the offset, clamped to the container. */
  function Move(s: DragState, client: Point, width: int, height: int): DragState {
    if !s.isDragging then s
    else s.(pos := Point(Clamp(client.x - s.dragStart.x, width), Clamp(client.y - s.dragStart.y, height)))
  }

  /** `handleMouseUp` as the listener installed at drag start runs it: it ends
      the drag and reports the position its closure captured. */
  function UpAsWritten(s: DragState, id: Value): (DragState, Option<Report>) {
    if s.isDragging then (s.(isDragging := false), Some(Report(id, s.listenerPos)))
    else (s, None)
  }

  /** `handleMouseUp` as intended: it ends the drag and reports the position
      the field is shown at. */
  function Up(s: DragState, id: Value): (r: (DragState, Option<Report>))
    ensures s.isDragging ==> !r.0.isDragging && r.0.pos == s.pos && r.1 == Some(Report(id, s.pos))
    ensures !s.isDragging ==> r == (s, None)
  {
    if s.isDragging then (s.(isDragging := false), Some(Report(id, s.pos)))
    else (s, None)
  }

  // ------------------------------------------------------------ properties

  /** During a drag, every move leaves the position inside the container. */
  lemma MoveStaysInside(s: DragState, client: Point, width: int, height: int)
    requires width >= 0 && height >= 0
    requires s.isDragging
    ensures var r := Move(s, client, width, height);
      0 <= r.pos.x <= width && 0 <= r.pos.y <= height
  {
  }

  /** With no drag on, a move changes nothing. */
  lemma MoveIgnoredWhenIdle(s: DragState, client: Point, width: int, height: int)
    requires !s.isDragging
    ensures Move(s, client, width, height) == s
  {
  }

  /** Moving back to the point where the drag started restores the position
      the field had, when that position was inside the container. */
  lemma ReturnToStart(s: DragState, client: Point, width: int, height: int)
    requires 0 <= s.pos.x <= width && 0 <= s.pos.y <= height
    ensures Move(Down(s, client), client, width, height).pos == s.pos
  {
    ClampInside(s.pos.x, width);
    ClampInside(s.pos.y, height);
  }

  /** A release reports once: a second release reports nothing. */
  lemma UpReportsOnce(s: DragState, id: Value)
    requires s.isDragging
    ensures Up(s, id).1.Some?
    ensures Up(Up(s, id).0, id).1 == None
  {
  }

  /** A drag of the field at (400, 300) from its own position to (500, 300)
      in an 800 by 600 container: the field is shown at (500, 300), but the
      listener installed at drag start reports (400, 300), where the drag
      began. The intended release reports (500, 300). */
  lemma StaleReportExample()
    ensures var s := Move(Down(Initial(400, 300), Point(400, 300)), Point(500, 300), 800, 600);
      && s.pos == Point(500, 300)
      && UpAsWritten(s, Num(1)).1 == Some(Report(Num(1), Point(400, 300)))
      && Up(s, Num(1)).1 == Some(Report(Num(1), Point(500, 300)))
  {
  }

  /** In general the as-written release reports where the drag began, not
      where the field is: a drag from an idle state reports the position at
      mouse down, whatever the moves did. */
  lemma {:induction false} UpAsWrittenReportsStart(s: DragState, down: Point, moves: seq<Point>, width: int, height: int, id: Value)
    requires !s.isDragging
    ensures UpAsWritten(Moves(Down(s, down), moves, width, height), id).1 == Some(Report(id, s.pos))
    ensures Up(Moves(Down(s, down), moves, width, height), id).1
            == Some(Report(id, Moves(Down(s, down), moves, width, height).pos))
  {
    MovesKeepListener(Down(s, down), moves, width, height);
  }

  /** A run of mouse moves. */
  function Moves(s: DragState, moves: seq<Point>, width: int, height: int): DragState
    decreases |moves|
  {
    if moves == [] then s else Moves(Move(s, moves[0], width, height), moves[1..], width, height)
  }

  lemma {:induction false} MovesKeepListener(s: DragState, moves: seq<Point>, width: int, height: int)
    ensures Moves(s, moves, width, height).listenerPos == s.listenerPos
    ensures Moves(s, moves, width, height).isDragging == s.isDragging
    decreases |moves|
  {
    if moves != [] {
      MovesKeepListener(Move(s, moves[0], width, height), moves[1..], width, height);
    }
  }

  // --------------------------------------------------------- the component

  /** One mounted field label, with the intended release behaviour. */
  class DragHandle {
    const fieldId: Value
    const containerWidth: int
    const containerHeight: int
    var isDragging: bool
    var pos: Point
    var dragStart: Point

    constructor (id: Value, x: int, y: int, width: int, height: int)
      ensures fieldId == id && containerWidth == width && containerHeight == height
      ensures !isDragging && pos == Point(x, y)
    {
      fieldId := id;
      containerWidth := width;
      containerHeight := height;
      isDragging := false;
      pos := Point(x, y);
      dragStart := Point(0, 0);
    }

    /** The stored position changed: show it. */
    method FieldMoved(x: int, y: int)
      modifies this
      ensures pos == Point(x, y) && isDragging == old(isDragging) && dragStart == old(dragStart)
    {
      pos := Point(x, y);
    }

    /** Returns the id passed to `onSelect`. */
    method MouseDown(client: Point) returns (selected: Value)
      modifies this
      ensures selected == fieldId
      ensures isDragging && pos == old(pos)
      ensures dragStart == Down(old(State()), client).dragStart
    {
      isDragging := true;
      selected := fieldId;
      dragStart := Point(client.x - pos.x, client.y - pos.y);
    }

    method MouseMove(client: Point)
      modifies this
      ensures State() == Move(old(State()), client, containerWidth, containerHeight).(listenerPos := pos)
    {
      if !isDragging {
        return;
      }
      var newX := Clamp(client.x - dragStart.x, containerWidth);
      var newY := Clamp(client.y - dragStart.y, containerHeight);
      pos := Point(newX, newY);
    }

    /** Returns what is passed to `onUpdate`, if anything. */
    method MouseUp() returns (report: Option<Report>)
      modifies this
      ensures (State(), report) == Up(old(State()), fieldId)
    {
      report := None;
      if isDragging {
        isDragging := false;
        report := Some(Report(fieldId, pos));
      }
    }

    /** The state as the pure step functions see it, with listeners that
        read the current position. */
    function State(): DragState
      reads this
    {
      DragState(isDragging, pos, dragStart, pos)
    }
  }
}
