/**
 * The current-locale state of src/detect-locale-change.ts, together with the
 * `localeCodeChange` event channel it listens to (src/navigator.ts triggers the
 * same event). Triggering is recorded in an event log; once the subscription of
 * `detectLocaleCodeChange` is in place, every later event also sets the locale.
 */
module DetectLocaleChange {
  import opened Wrappers
  import opened Text

  /** A `localeCodeChange` event: the new code and, when given, the previous one. */
  datatype LocaleEvent = LocaleCodeChange(code: string, previous: Option<string>)

  /** `location.pathname.replace(/^\//, "").split("/")[0]`: the first segment after one leading slash. */
  function FirstSegment(pathname: string): (s: string)
    ensures '/' !in s
    ensures |pathname| > 0 && pathname[0] == '/' ==> s == Split(pathname[1..], '/')[0]
  {
    var rest := if |pathname| > 0 && pathname[0] == '/' then pathname[1..] else pathname;
    Split(rest, '/')[0]
  }

  /** The first segment of `/<segment>/...` is `<segment>`, whatever follows. */
  lemma FirstSegmentOf(segment: string, rest: string)
    requires '/' !in segment
    ensures FirstSegment("/" + segment + "/" + rest) == segment
    ensures FirstSegment("/" + segment) == segment
  {
    assert ("/" + segment + "/" + rest)[1..] == segment + ("/" + rest);
    SplitGlue(segment, "/" + rest, '/');
    assert ("/" + segment)[1..] == segment + "";
    SplitGlue(segment, "", '/');
  }

  class LocaleTracker {
    /** `currentLocale`: `""` until a locale is detected. */
    var currentLocale: string
    /** Whether `detectLocaleCodeChange` has subscribed to `localeCodeChange`. */
    var subscribed: bool
    /** Every `localeCodeChange` event triggered so far, oldest first. */
    var events: seq<LocaleEvent>

    constructor ()
      ensures currentLocale == "" && !subscribed && events == []
    {
      currentLocale := "";
      subscribed := false;
      events := [];
    }

    /** `trigger("localeCodeChange", ...)`: recorded, and applied by the subscription when there is one. */
    method Trigger(e: LocaleEvent)
      modifies this
      ensures events == old(events) + [e]
      ensures subscribed == old(subscribed)
      ensures currentLocale == (if subscribed then e.code else old(currentLocale))
    {
      events := events + [e];
      if subscribed {
        currentLocale := e.code;
      }
    }

    /**
     * `detectLocaleCodeChange()`: when the first path segment is a locale code,
     * the change event carries the new and the previous code and is triggered
     * before the locale is stored; afterwards every change event sets the locale.
     */
    method DetectLocaleCodeChange(pathname: string, codes: seq<string>)
      modifies this
      ensures subscribed
      ensures FirstSegment(pathname) in codes ==>
                events == old(events) + [LocaleCodeChange(FirstSegment(pathname), Some(old(currentLocale)))]
                && currentLocale == FirstSegment(pathname)
      ensures FirstSegment(pathname) !in codes ==> events == old(events) && currentLocale == old(currentLocale)
    {
      var localeCode := FirstSegment(pathname);
      if localeCode in codes {
        Trigger(LocaleCodeChange(localeCode, Some(currentLocale)));
        currentLocale := localeCode;
      }
      subscribed := true;
    }

    /** `getCurrentLocaleCode()`. */
    function GetCurrentLocaleCode(): (r: string)
      reads this
      ensures r == currentLocale
    {
      currentLocale
    }
  }
}
