/** `useDashboardWidgets` (the `.tsx` hook): the layout and the edit-mode flag it keeps in
    state, and the callbacks that replace them. `uuidv4()` is the parameter `newId`. */
module DashboardWidgets {
  import opened Wrappers
  import opened WidgetLayout

  class WidgetBoard {
    var layout: DashboardLayout
    var isEditMode: bool

    /** `useState(initialLayout)` and `useState(false)`. */
    constructor(initialLayout: DashboardLayout)
      ensures layout == initialLayout && !isEditMode
    {
      layout := initialLayout;
      isEditMode := false;
    }

    /** The exported `setLayout`. */
    method SetLayout(l: DashboardLayout)
      modifies this
      ensures layout == l && isEditMode == old(isEditMode)
    {
      layout := l;
    }

    method ToggleEditMode()
      modifies this
      ensures isEditMode == !old(isEditMode) && layout == old(layout)
    {
      isEditMode := !isEditMode;
    }

    /** Appends one shown widget titled `customTitle`, or "Novo <type>" when it is absent or
        empty; the other widgets and `columns` are kept. */
    method AddWidget(widgetType: string, customTitle: Option<string>, newId: string)
      modifies this
      ensures layout == Appended(old(layout), NewWidget(newId, widgetType, customTitle))
      ensures layout.widgets[|old(layout.widgets)|].title == OrDefault(customTitle, "Novo " + widgetType)
      ensures isEditMode == old(isEditMode)
    {
      layout := Appended(layout, NewWidget(newId, widgetType, customTitle));
    }

    /** Keeps exactly the widgets with another id, in order. */
    method RemoveWidget(widgetId: string)
      modifies this
      ensures layout == old(layout).(widgets := Removed(old(layout.widgets), widgetId))
      ensures forall w :: w in layout.widgets <==> w in old(layout.widgets) && w.id != widgetId
      ensures isEditMode == old(isEditMode)
    {
      RemovedExact(layout.widgets, widgetId);
      layout := layout.(widgets := Removed(layout.widgets, widgetId));
    }

    /** Sets the position of the widgets with that id; the toast is not modelled. */
    method UpdateWidgetPosition(widgetId: string, position: Point)
      modifies this
      ensures layout == old(layout).(widgets := Updated(old(layout.widgets), widgetId, WithPosition(position)))
      ensures |layout.widgets| == |old(layout.widgets)|
      ensures forall i :: 0 <= i < |layout.widgets| ==>
        layout.widgets[i] == old(layout.widgets[i]).(position := layout.widgets[i].position)
      ensures isEditMode == old(isEditMode)
    {
      UpdatedPositionOnly(layout.widgets, widgetId, position);
      layout := layout.(widgets := Updated(layout.widgets, widgetId, WithPosition(position)));
    }

    method UpdateWidgetSize(widgetId: string, size: Size)
      modifies this
      ensures layout == old(layout).(widgets := Updated(old(layout.widgets), widgetId, WithSize(size)))
      ensures |layout.widgets| == |old(layout.widgets)|
      ensures forall i :: 0 <= i < |layout.widgets| ==>
        layout.widgets[i] == old(layout.widgets[i]).(size := layout.widgets[i].size)
      ensures isEditMode == old(isEditMode)
    {
      UpdatedSizeOnly(layout.widgets, widgetId, size);
      layout := layout.(widgets := Updated(layout.widgets, widgetId, WithSize(size)));
    }

    method ToggleWidgetVisibility(widgetId: string)
      modifies this
      ensures layout == old(layout).(widgets := Updated(old(layout.widgets), widgetId, Toggled))
      ensures |layout.widgets| == |old(layout.widgets)|
      ensures forall i :: 0 <= i < |layout.widgets| ==>
        (Visible(layout.widgets[i]) <==> (old(layout.widgets[i]).id == widgetId) != Visible(old(layout.widgets[i])))
      ensures isEditMode == old(isEditMode)
    {
      UpdatedVisibilityOnly(layout.widgets, widgetId);
      layout := layout.(widgets := Updated(layout.widgets, widgetId, Toggled));
    }

    /** Appends a copy of the first widget with that id under `newId`; an unknown id leaves
        the layout as it was. */
    method DuplicateWidget(widgetId: string, newId: string)
      modifies this
      ensures layout == Duplicated(old(layout), widgetId, newId)
      ensures (forall i :: 0 <= i < |old(layout.widgets)| ==> old(layout.widgets[i]).id != widgetId) ==> layout == old(layout)
      ensures isEditMode == old(isEditMode)
    {
      layout := Duplicated(layout, widgetId, newId);
    }

    /** Appends the dropped widget; a serialized widget that fails to parse is caught and
        the layout stays. */
    method HandleWidgetDrop(widget: Drop, newId: string)
      modifies this
      ensures layout == AfterDrop(old(layout), widget, newId)
      ensures (widget.Serialized? && widget.parsed.None?) ==> layout == old(layout)
      ensures isEditMode == old(isEditMode)
    {
      layout := AfterDrop(layout, widget, newId);
    }
  }
}
