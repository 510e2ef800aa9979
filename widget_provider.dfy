/**
 * The widget switch: one flag, on by default, that says whether the
 * support widget is shown, with three setters.
 */
module WidgetContextProvider {

  /** The flag a component sees outside any provider; there the three setters do nothing. */
  const DefaultWidgetEnabled: bool := true

  class WidgetProvider {
    var isWidgetEnabled: bool

    constructor ()
      ensures isWidgetEnabled == DefaultWidgetEnabled
    {
      isWidgetEnabled := true;
    }

    /** `toggleWidget`. */
    method ToggleWidget()
      modifies this
      ensures isWidgetEnabled == !old(isWidgetEnabled)
    {
      isWidgetEnabled := !isWidgetEnabled;
    }

    /** `enableWidget`: on, whatever it was. */
    method EnableWidget()
      modifies this
      ensures isWidgetEnabled
    {
      isWidgetEnabled := true;
    }

    /** `disableWidget`: off, whatever it was. */
    method DisableWidget()
      modifies this
      ensures !isWidgetEnabled
    {
      isWidgetEnabled := false;
    }
  }

  /** Toggling twice restores the flag. */
  method ToggleTwiceRestores(p: WidgetProvider)
    modifies p
    ensures p.isWidgetEnabled == old(p.isWidgetEnabled)
  {
    p.ToggleWidget();
    p.ToggleWidget();
  }

  /** Enabling or disabling a second time changes nothing: `once` is the
      flag after the first call, and the second call leaves it so. */
  method SettersIdempotent(p: WidgetProvider, enable: bool) returns (once: bool)
    modifies p
    ensures once == enable
    ensures p.isWidgetEnabled == once
  {
    if enable {
      p.EnableWidget();
      once := p.isWidgetEnabled;
      p.EnableWidget();
    } else {
      p.DisableWidget();
      once := p.isWidgetEnabled;
      p.DisableWidget();
    }
  }
}
