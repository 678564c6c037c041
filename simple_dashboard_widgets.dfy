/** `useDashboardWidgets` in its `.ts` form: the same state, with a fixed-title `addWidget`
    and without duplication or drops. `uuidv4()` is the parameter `newId`. */
module SimpleDashboardWidgets {
  import opened Wrappers
  import opened WidgetLayout

  class SimpleWidgetBoard {
    var layout: DashboardLayout
    var isEditMode: bool

    constructor(initialLayout: DashboardLayout)
      ensures layout == initialLayout && !isEditMode
    {
      layout := initialLayout;
      isEditMode := false;
    }

    method SetLayout(l: DashboardLayout)
      modifies this
      ensures layout == l && isEditMode == old(isEditMode)
    {
      layout := l;
    }

    method ToggleEditMode()
      modifies this
      ensures isEditMode == !old(isEditMode) && layout == old(layout)
    {
      isEditMode := !isEditMode;
    }

    /** Appends one shown widget titled "Novo <type>". */
    method AddWidget(widgetType: string, newId: string)
      modifies this
      ensures layout == Appended(old(layout), NewWidget(newId, widgetType, None))
      ensures layout.widgets[|old(layout.widgets)|] == WidgetConfig(newId, "Novo " + widgetType, widgetType, None, None, Some(true))
      ensures isEditMode == old(isEditMode)
    {
      layout := Appended(layout, NewWidget(newId, widgetType, None));
    }

    method RemoveWidget(widgetId: string)
      modifies this
      ensures layout == old(layout).(widgets := Removed(old(layout.widgets), widgetId))
      ensures forall w :: w in layout.widgets <==> w in old(layout.widgets) && w.id != widgetId
      ensures isEditMode == old(isEditMode)
    {
      RemovedExact(layout.widgets, widgetId);
      layout := layout.(widgets := Removed(layout.widgets, widgetId));
    }

    method UpdateWidgetPosition(widgetId: string, position: Point)
      modifies this
      ensures layout == old(layout).(widgets := Updated(old(layout.widgets), widgetId, WithPosition(position)))
      ensures |layout.widgets| == |old(layout.widgets)|
      ensures forall i :: 0 <= i < |layout.widgets| ==>
        layout.widgets[i] == old(layout.widgets[i]).(position := layout.widgets[i].position)
      ensures isEditMode == old(isEditMode)
    {
      UpdatedPositionOnly(layout.widgets, widgetId, position);
      layout := layout.(widgets := Updated(layout.widgets, widgetId, WithPosition(position)));
    }

    method UpdateWidgetSize(widgetId: string, size: Size)
      modifies this
      ensures layout == old(layout).(widgets := Updated(old(layout.widgets), widgetId, WithSize(size)))
      ensures |layout.widgets| == |old(layout.widgets)|
      ensures forall i :: 0 <= i < |layout.widgets| ==>
        layout.widgets[i] == old(layout.widgets[i]).(size := layout.widgets[i].size)
      ensures isEditMode == old(isEditMode)
    {
      UpdatedSizeOnly(layout.widgets, widgetId, size);
      layout := layout.(widgets := Updated(layout.widgets, widgetId, WithSize(size)));
    }

    method ToggleWidgetVisibility(widgetId: string)
      modifies this
      ensures layout == old(layout).(widgets := Updated(old(layout.widgets), widgetId, Toggled))
      ensures |layout.widgets| == |old(layout.widgets)|
      ensures forall i :: 0 <= i < |layout.widgets| ==>
        (Visible(layout.widgets[i]) <==> (old(layout.widgets[i]).id == widgetId) != Visible(old(layout.widgets[i])))
      ensures isEditMode == old(isEditMode)
    {
      UpdatedVisibilityOnly(layout.widgets, widgetId);
      layout := layout.(widgets := Updated(layout.widgets, widgetId, Toggled));
    }
  }
}
