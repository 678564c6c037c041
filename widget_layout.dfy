/** The dashboard layout (`WidgetConfig`, `DashboardLayout`) and the pure updates that both
    widget hooks apply to it inside `setLayout(prev => ...)`. React content and icons are
    not part of this model. */
module WidgetLayout {
  import opened Wrappers

  datatype Point = Point(x: real, y: real)

  datatype Size = Size(width: real, height: real)

  /** `WidgetConfig`; `position`, `size` and `visible` are optional. */
  datatype WidgetConfig = WidgetConfig(
    id: string,
    title: string,
    kind: string,
    position: Option<Point>,
    size: Option<Size>,
    visible: Option<bool>)

  /** `DashboardLayout`; `columns` is optional. */
  datatype DashboardLayout = DashboardLayout(widgets: seq<WidgetConfig>, columns: Option<real>)

  /** Whether a widget is drawn as visible: `visible` is truthy, so an absent flag is off. */
  predicate Visible(w: WidgetConfig)
  {
    w.visible == Some(true)
  }

  /** `s || d` for an optional string: the value when present and non-empty, else `d`. */
  function OrDefault(s: Option<string>, d: string): (r: string)
    ensures r == d || (s == Some(r) && r != "")
    ensures (s.None? || s.value == "") ==> r == d
    ensures d != "" ==> r != ""
  {
    if s.Some? && s.value != "" then s.value else d
  }

  /** `{...prev, widgets: [...prev.widgets, w]}`. */
  function Appended(l: DashboardLayout, w: WidgetConfig): (r: DashboardLayout)
    ensures r.columns == l.columns
    ensures |r.widgets| == |l.widgets| + 1 && r.widgets[..|l.widgets|] == l.widgets && r.widgets[|l.widgets|] == w
  {
    l.(widgets := l.widgets + [w])
  }

  /** `prev.widgets.filter(widget => widget.id !== widgetId)`. */
  function Removed(ws: seq<WidgetConfig>, id: string): (r: seq<WidgetConfig>)
    ensures |r| <= |ws|
  {
    if ws == [] then []
    else Removed(ws[..|ws| - 1], id) + (if ws[|ws| - 1].id != id then [ws[|ws| - 1]] else [])
  }

  /** Exactly the widgets with another id survive. */
  lemma {:induction false} RemovedExact(ws: seq<WidgetConfig>, id: string)
    ensures forall w :: w in Removed(ws, id) <==> w in ws && w.id != id
  {
    if ws != [] {
      RemovedExact(ws[..|ws| - 1], id);
      assert ws == ws[..|ws| - 1] + [ws[|ws| - 1]];
    }
  }

  /** Removal keeps the survivors in their order: it distributes over concatenation. */
  lemma {:induction false} RemovedAppend(a: seq<WidgetConfig>, b: seq<WidgetConfig>, id: string)
    ensures Removed(a + b, id) == Removed(a, id) + Removed(b, id)
    decreases |b|
  {
    if b == [] {
      assert a + b == a;
    } else {
      var b' := b[..|b| - 1];
      assert (a + b)[..|a + b| - 1] == a + b';
      RemovedAppend(a, b', id);
    }
  }

  /** A list with no widget of that id is left as it is. */
  lemma {:induction false} RemovedAbsent(ws: seq<WidgetConfig>, id: string)
    requires forall i :: 0 <= i < |ws| ==> ws[i].id != id
    ensures Removed(ws, id) == ws
  {
    if ws != [] {
      RemovedAbsent(ws[..|ws| - 1], id);
    }
  }

  /** Removing twice is removing once. */
  lemma RemovedIdempotent(ws: seq<WidgetConfig>, id: string)
    ensures Removed(Removed(ws, id), id) == Removed(ws, id)
  {
    var r := Removed(ws, id);
    RemovedExact(ws, id);
    forall i | 0 <= i < |r| ensures r[i].id != id {
      assert r[i] in r;
    }
    RemovedAbsent(r, id);
  }

  /** `prev.widgets.map(widget => widget.id === widgetId ? f(widget) : widget)`. */
  function Updated(ws: seq<WidgetConfig>, id: string, f: WidgetConfig -> WidgetConfig): (r: seq<WidgetConfig>)
    ensures |r| == |ws|
    ensures forall i :: 0 <= i < |ws| ==> r[i] == if ws[i].id == id then f(ws[i]) else ws[i]
  {
    if ws == [] then []
    else Updated(ws[..|ws| - 1], id, f) + [if ws[|ws| - 1].id == id then f(ws[|ws| - 1]) else ws[|ws| - 1]]
  }

  /** `{...widget, position}`. */
  function WithPosition(p: Point): WidgetConfig -> WidgetConfig
  {
    (w: WidgetConfig) => w.(position := Some(p))
  }

  /** `{...widget, size}`. */
  function WithSize(s: Size): WidgetConfig -> WidgetConfig
  {
    (w: WidgetConfig) => w.(size := Some(s))
  }

  /** `{...widget, visible: !widget.visible}`. */
  function Toggled(w: WidgetConfig): WidgetConfig
  {
    w.(visible := Some(!Visible(w)))
  }

  /** Moving widgets sets the position of the matching ones and touches nothing else. */
  lemma UpdatedPositionOnly(ws: seq<WidgetConfig>, id: string, p: Point)
    ensures var r := Updated(ws, id, WithPosition(p));
      |r| == |ws| &&
      forall i :: 0 <= i < |ws| ==>
        r[i] == ws[i].(position := r[i].position) &&
        r[i].position == if ws[i].id == id then Some(p) else ws[i].position
  {
  }

  /** Resizing widgets sets the size of the matching ones and touches nothing else. */
  lemma UpdatedSizeOnly(ws: seq<WidgetConfig>, id: string, s: Size)
    ensures var r := Updated(ws, id, WithSize(s));
      |r| == |ws| &&
      forall i :: 0 <= i < |ws| ==>
        r[i] == ws[i].(size := r[i].size) &&
        r[i].size == if ws[i].id == id then Some(s) else ws[i].size
  {
  }

  /** Toggling flips whether the matching widgets are visible and touches nothing else. */
  lemma UpdatedVisibilityOnly(ws: seq<WidgetConfig>, id: string)
    ensures var r := Updated(ws, id, Toggled);
      |r| == |ws| &&
      forall i :: 0 <= i < |ws| ==>
        r[i] == ws[i].(visible := r[i].visible) &&
        (Visible(r[i]) <==> if ws[i].id == id then !Visible(ws[i]) else Visible(ws[i]))
  {
  }

  /** A second move of the same widgets overrides the first. */
  lemma MoveTwice(ws: seq<WidgetConfig>, id: string, p: Point, q: Point)
    ensures Updated(Updated(ws, id, WithPosition(p)), id, WithPosition(q)) == Updated(ws, id, WithPosition(q))
  {
    var a := Updated(Updated(ws, id, WithPosition(p)), id, WithPosition(q));
    var b := Updated(ws, id, WithPosition(q));
    forall i | 0 <= i < |ws| ensures a[i] == b[i] {
      assert Updated(ws, id, WithPosition(p))[i].id == ws[i].id;
    }
  }

  /** Toggling twice restores every widget once its flag has been set, and restores what is
      drawn in any case. */
  lemma ToggleTwice(ws: seq<WidgetConfig>, id: string)
    ensures var r := Updated(Updated(ws, id, Toggled), id, Toggled);
      |r| == |ws| &&
      (forall i :: 0 <= i < |ws| ==> Visible(r[i]) == Visible(ws[i])) &&
      ((forall i :: 0 <= i < |ws| ==> ws[i].visible.Some?) ==> r == ws)
  {
    var once := Updated(ws, id, Toggled);
    var r := Updated(once, id, Toggled);
    forall i | 0 <= i < |ws|
      ensures Visible(r[i]) == Visible(ws[i])
      ensures ws[i].visible.Some? ==> r[i] == ws[i]
    {
      assert once[i].id == ws[i].id;
      assert r[i] == if ws[i].id == id then Toggled(Toggled(ws[i])) else ws[i];
      ToggledTwice(ws[i]);
    }
  }

  lemma ToggledTwice(w: WidgetConfig)
    ensures Visible(Toggled(Toggled(w))) == Visible(w)
    ensures w.visible.Some? ==> Toggled(Toggled(w)) == w
  {
    var t := Toggled(w);
    assert Visible(t) == !Visible(w);
    assert Toggled(t) == w.(visible := Some(Visible(w)));
    if w.visible.Some? {
      var b := w.visible.value;
      assert w.visible == Some(b);
      if b {
        assert Visible(w);
      } else {
        assert w.visible == Some(false);
      }
    }
  }

  /** The first widget with the given id: `prev.widgets.find(widget => widget.id === widgetId)`. */
  function FirstIndex(ws: seq<WidgetConfig>, id: string): (r: int)
    ensures -1 <= r < |ws|
    ensures r >= 0 ==> ws[r].id == id && forall j :: 0 <= j < r ==> ws[j].id != id
    ensures r == -1 ==> forall j :: 0 <= j < |ws| ==> ws[j].id != id
  {
    if ws == [] then -1
    else if ws[0].id == id then 0
    else
      var k := FirstIndex(ws[1..], id);
      if k == -1 then -1 else k + 1
  }

  function Find(ws: seq<WidgetConfig>, id: string): (r: Option<WidgetConfig>)
    ensures r.None? <==> forall j :: 0 <= j < |ws| ==> ws[j].id != id
    ensures r.Some? ==> r.value in ws && r.value.id == id
  {
    var k := FirstIndex(ws, id);
    if k == -1 then None else Some(ws[k])
  }

  /** The copy `duplicateWidget` appends: the original under a fresh id, its title marked. */
  function Copy(w: WidgetConfig, newId: string): WidgetConfig
  {
    w.(id := newId, title := w.title + " (cópia)")
  }

  /** `duplicateWidget`'s updater: an unknown id returns `prev`; otherwise a copy of the first
      match is appended. */
  function Duplicated(l: DashboardLayout, id: string, newId: string): (r: DashboardLayout)
    ensures Find(l.widgets, id).None? ==> r == l
    ensures Find(l.widgets, id).Some? ==> r == Appended(l, Copy(Find(l.widgets, id).value, newId))
  {
    match Find(l.widgets, id)
    case None => l
    case Some(w) => Appended(l, Copy(w, newId))
  }

  /** The copy differs from the first match only in its id and its title. */
  lemma DuplicatedCopiesFirst(l: DashboardLayout, id: string, newId: string)
    requires Find(l.widgets, id).Some?
    ensures var r := Duplicated(l, id, newId);
      var k := FirstIndex(l.widgets, id);
      |r.widgets| == |l.widgets| + 1 && r.widgets[..|l.widgets|] == l.widgets &&
      r.widgets[|l.widgets|] == l.widgets[k].(id := newId, title := l.widgets[k].title + " (cópia)")
  {
  }

  /** The widget `addWidget` creates: `customTitle || \`Novo ${widgetType}\``, shown. */
  function NewWidget(newId: string, widgetType: string, customTitle: Option<string>): (w: WidgetConfig)
    ensures w.id == newId && w.kind == widgetType && Visible(w)
    ensures w.position.None? && w.size.None?
    ensures w.title == OrDefault(customTitle, "Novo " + widgetType)
  {
    WidgetConfig(newId, OrDefault(customTitle, "Novo " + widgetType), widgetType, None, None, Some(true))
  }

  /** `Partial<WidgetConfig>` as read back from a drag: only `title` and `type` are used. */
  datatype PartialWidget = PartialWidget(title: Option<string>, kind: Option<string>)

  /** What `handleWidgetDrop` receives: a serialized widget, whose `JSON.parse` result is
      given (`None` when parsing throws), or a widget object. */
  datatype Drop = Serialized(parsed: Option<PartialWidget>) | Dragged(widget: WidgetConfig)

  function DropData(d: Drop): (r: Option<PartialWidget>)
    ensures d.Dragged? ==> r == Some(PartialWidget(Some(d.widget.title), Some(d.widget.kind)))
    ensures d.Serialized? ==> r == d.parsed
  {
    match d
    case Serialized(parsed) => parsed
    case Dragged(w) => Some(PartialWidget(Some(w.title), Some(w.kind)))
  }

  /** The widget a drop creates: the dragged title or "Novo Widget", marked as a copy, the
      dragged type or "resumo", shown. */
  function DroppedWidget(newId: string, data: PartialWidget): (w: WidgetConfig)
    ensures w.id == newId && Visible(w) && w.position.None? && w.size.None?
    ensures w.title == OrDefault(data.title, "Novo Widget") + " (cópia)"
    ensures w.kind == OrDefault(data.kind, "resumo") && w.kind != ""
  {
    WidgetConfig(newId, OrDefault(data.title, "Novo Widget") + " (cópia)", OrDefault(data.kind, "resumo"), None, None, Some(true))
  }

  /** `handleWidgetDrop`: a parse failure is caught and the layout stays; otherwise the new
      widget is appended. */
  function AfterDrop(l: DashboardLayout, d: Drop, newId: string): (r: DashboardLayout)
    ensures DropData(d).None? ==> r == l
    ensures DropData(d).Some? ==> r == Appended(l, DroppedWidget(newId, DropData(d).value))
  {
    match DropData(d)
    case None => l
    case Some(data) => Appended(l, DroppedWidget(newId, data))
  }

  /** A widget added under a fresh id is removed again by its id: `removeWidget` undoes
      `addWidget`, `duplicateWidget` and a drop. */
  lemma RemoveUndoesAppend(l: DashboardLayout, w: WidgetConfig)
    requires forall i :: 0 <= i < |l.widgets| ==> l.widgets[i].id != w.id
    ensures Removed(Appended(l, w).widgets, w.id) == l.widgets
  {
    RemovedAppend(l.widgets, [w], w.id);
    RemovedAbsent(l.widgets, w.id);
    assert [w][..0] == [];
  }
}
