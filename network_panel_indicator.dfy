/**
 * The warning indicator of the Network panel tab
 * (mobile_throttling/NetworkPanelIndicator.ts): whenever the network
 * configuration changes, it collects one warning per active override and
 * shows them as the tooltip of a warning icon on the tab, or clears the icon
 * when nothing is overridden.
 *
 * The network manager and the `cacheDisabled` setting are abstracted to the
 * five conditions they report; the event wiring becomes the `listening` flag.
 */
module MobileThrottling {
  import opened Wrappers

  /** The keys of `UIStrings` (lines 11-33). */
  datatype UIString =
    | BrowserCacheDisabled
    | NetworkThrottlingIsEnabled
    | RequestsMayBeOverridden
    | RequestsMayBeBlocked
    | AcceptedEncodingOverrideSet

  /** `i18nString`, untranslated: the English text of each key (lines 15-32). */
  function I18nString(key: UIString): string
  {
    match key
    case BrowserCacheDisabled => "Browser cache is disabled"
    case NetworkThrottlingIsEnabled => "Network throttling is enabled"
    case RequestsMayBeOverridden => "Requests may be overridden locally, see the Sources panel"
    case RequestsMayBeBlocked => "Requests may be blocked, see the Network request blocking panel"
    case AcceptedEncodingOverrideSet =>
      "The set of accepted `Content-Encoding` headers has been modified by DevTools, see the Network conditions panel"
  }

  /** What the network manager and the settings report when the indicator updates. */
  datatype NetworkConditions = NetworkConditions(
    isThrottling: bool,
    cacheDisabled: bool,
    isIntercepting: bool,
    isBlocking: bool,
    isAcceptedEncodingOverrideSet: bool)

  /** All warnings, in the order the indicator lists them. */
  const WarningOrder: seq<UIString> :=
    [NetworkThrottlingIsEnabled, BrowserCacheDisabled, RequestsMayBeOverridden, RequestsMayBeBlocked, AcceptedEncodingOverrideSet]

  /** Whether each warning of WarningOrder applies. */
  function Active(c: NetworkConditions): (flags: seq<bool>)
    ensures |flags| == |WarningOrder|
  {
    [c.isThrottling, c.cacheDisabled, c.isIntercepting, c.isBlocking, c.isAcceptedEncodingOverrideSet]
  }

  /** The first n elements of xs whose flag is set, in order. */
  function Select<T>(xs: seq<T>, keep: seq<bool>, n: nat): seq<T>
    requires |xs| == |keep| && n <= |xs|
  {
    if n == 0 then [] else Select(xs, keep, n - 1) + (if keep[n - 1] then [xs[n - 1]] else [])
  }

  /** Reference definition of the warning list: the applicable warnings, in the fixed order. */
  function Warnings(c: NetworkConditions): seq<UIString>
  {
    Select(WarningOrder, Active(c), |WarningOrder|)
  }

  /** Number of set flags among the first n. */
  function CountSet(keep: seq<bool>, n: nat): nat
    requires n <= |keep|
  {
    if n == 0 then 0 else CountSet(keep, n - 1) + (if keep[n - 1] then 1 else 0)
  }

  /**
   * With distinct elements, an element is selected from the first n exactly
   * when it is among them and its flag is set, and one element is selected
   * per set flag.
   */
  lemma {:induction false} SelectMembers<T>(xs: seq<T>, keep: seq<bool>, n: nat)
    requires |xs| == |keep| && n <= |xs|
    requires NoRepeats(xs)
    ensures forall i :: 0 <= i < |xs| ==> (xs[i] in Select(xs, keep, n) <==> i < n && keep[i])
    ensures |Select(xs, keep, n)| == CountSet(keep, n)
  {
    if n > 0 {
      SelectMembers(xs, keep, n - 1);
    }
  }

  /** One warning per active condition, and each warning is listed exactly when its condition holds. */
  lemma WarningsMembers(c: NetworkConditions)
    ensures NetworkThrottlingIsEnabled in Warnings(c) <==> c.isThrottling
    ensures BrowserCacheDisabled in Warnings(c) <==> c.cacheDisabled
    ensures RequestsMayBeOverridden in Warnings(c) <==> c.isIntercepting
    ensures RequestsMayBeBlocked in Warnings(c) <==> c.isBlocking
    ensures AcceptedEncodingOverrideSet in Warnings(c) <==> c.isAcceptedEncodingOverrideSet
    ensures |Warnings(c)| == CountSet(Active(c), |WarningOrder|)
  {
    SelectMembers(WarningOrder, Active(c), |WarningOrder|);
    assert WarningOrder[0] == NetworkThrottlingIsEnabled && WarningOrder[1] == BrowserCacheDisabled;
    assert WarningOrder[2] == RequestsMayBeOverridden && WarningOrder[3] == RequestsMayBeBlocked;
    assert WarningOrder[4] == AcceptedEncodingOverrideSet;
  }

  /** A warning's place in WarningOrder. */
  function Rank(key: UIString): (r: nat)
    ensures r < |WarningOrder| && WarningOrder[r] == key
  {
    match key
    case NetworkThrottlingIsEnabled => 0
    case BrowserCacheDisabled => 1
    case RequestsMayBeOverridden => 2
    case RequestsMayBeBlocked => 3
    case AcceptedEncodingOverrideSet => 4
  }

  /** The warnings selected from the first n come from the first n, in increasing rank. */
  lemma {:induction false} SelectRanked(c: NetworkConditions, n: nat)
    requires n <= |WarningOrder|
    ensures forall i :: 0 <= i < |Select(WarningOrder, Active(c), n)| ==> Rank(Select(WarningOrder, Active(c), n)[i]) < n
    ensures forall i, j :: 0 <= i < j < |Select(WarningOrder, Active(c), n)| ==>
              Rank(Select(WarningOrder, Active(c), n)[i]) < Rank(Select(WarningOrder, Active(c), n)[j])
  {
    if n > 0 {
      SelectRanked(c, n - 1);
      assert Rank(WarningOrder[n - 1]) == n - 1;
    }
  }

  /** The warnings are listed in the fixed order: throttling, cache, interception, blocking, encodings. */
  lemma WarningsInOrder(c: NetworkConditions)
    ensures forall i, j :: 0 <= i < j < |Warnings(c)| ==> Rank(Warnings(c)[i]) < Rank(Warnings(c)[j])
  {
    SelectRanked(c, |WarningOrder|);
  }

  /** The warning list is empty exactly when no condition holds. */
  lemma NoWarnings(c: NetworkConditions)
    ensures Warnings(c) == [] <==>
              !(c.isThrottling || c.cacheDisabled || c.isIntercepting || c.isBlocking || c.isAcceptedEncodingOverrideSet)
  {
    WarningsMembers(c);
    var order, active := WarningOrder, Active(c);
    if !(c.isThrottling || c.cacheDisabled || c.isIntercepting || c.isBlocking || c.isAcceptedEncodingOverrideSet) {
      assert Select(order, active, 1) == [];
      assert Select(order, active, 3) == [];
      assert Select(order, active, 5) == [];
    }
  }

  /** The texts of the keys, in order. */
  function Texts(keys: seq<UIString>): seq<string>
  {
    seq(|keys|, i requires 0 <= i < |keys| => I18nString(keys[i]))
  }

  /** `warnings.join(separator)`. */
  function Join(ws: seq<string>, separator: string): string
  {
    if ws == [] then "" else if |ws| == 1 then ws[0] else ws[0] + separator + Join(ws[1..], separator)
  }

  /** The tooltip for a non-empty warning list (line 75): the lone warning, or one bullet per warning. */
  function Tooltip(ws: seq<string>): string
    requires |ws| >= 1
  {
    if |ws| == 1 then ws[0] else "· " + Join(ws, "\n· ")
  }

  /** Each warning behind a bullet. */
  function Bulleted(ws: seq<string>): (r: seq<string>)
    ensures |r| == |ws| && forall i :: 0 <= i < |ws| ==> r[i] == "· " + ws[i]
  {
    if ws == [] then [] else ["· " + ws[0]] + Bulleted(ws[1..])
  }

  /** `"· " + join(ws, "\n· ")` puts each warning, behind a bullet, on a line of its own. */
  lemma {:induction false} BulletedLines(ws: seq<string>)
    requires |ws| >= 1
    ensures "· " + Join(ws, "\n· ") == Join(Bulleted(ws), "\n")
  {
    if |ws| > 1 {
      BulletedLines(ws[1..]);
      assert Bulleted(ws)[1..] == Bulleted(ws[1..]);
      calc {
        "· " + Join(ws, "\n· ");
        "· " + (ws[0] + "\n· " + Join(ws[1..], "\n· "));
        ("· " + ws[0]) + "\n" + ("· " + Join(ws[1..], "\n· "));
        ("· " + ws[0]) + "\n" + Join(Bulleted(ws[1..]), "\n");
      }
    }
  }

  /** Two or more warnings make a tooltip of bulleted lines, one per warning. */
  lemma TooltipLines(ws: seq<string>)
    requires |ws| >= 2
    ensures Tooltip(ws) == Join(Bulleted(ws), "\n")
  {
    BulletedLines(ws);
  }

  /** The Network tab's icon: never set, cleared (`null`), or a warning icon with its tooltip. */
  datatype PanelIcon = Unset | NoIcon | WarningIcon(tooltip: string)

  /** The icon `updateVisibility` settles on under the given conditions. */
  function PanelIconFor(c: NetworkConditions): PanelIcon
  {
    var ws := Texts(Warnings(c));
    if |ws| == 0 then NoIcon else WarningIcon(Tooltip(ws))
  }

  /**
   * The icon is cleared exactly when nothing is overridden; with a single
   * warning the tooltip is that warning's text, with several it lists them
   * all, one bulleted line each.
   */
  lemma PanelIconCases(c: NetworkConditions)
    ensures PanelIconFor(c) == NoIcon <==>
              !(c.isThrottling || c.cacheDisabled || c.isIntercepting || c.isBlocking || c.isAcceptedEncodingOverrideSet)
    ensures PanelIconFor(c) != Unset
    ensures |Warnings(c)| == 1 ==> PanelIconFor(c) == WarningIcon(I18nString(Warnings(c)[0]))
    ensures |Warnings(c)| >= 2 ==> PanelIconFor(c) == WarningIcon(Join(Bulleted(Texts(Warnings(c))), "\n"))
  {
    NoWarnings(c);
    if |Warnings(c)| >= 2 {
      TooltipLines(Texts(Warnings(c)));
    }
  }

  /** The inspector's view, reduced to whether it has a Network panel and that panel's tab icon. */
  class InspectorView {
    const hasNetworkPanel: bool
    var networkIcon: PanelIcon

    constructor(hasNetworkPanel: bool)
      ensures this.hasNetworkPanel == hasNetworkPanel && networkIcon == Unset
    {
      this.hasNetworkPanel := hasNetworkPanel;
      networkIcon := Unset;
    }
  }

  /**
   * Lines 55-70: one push per active condition, starting from an empty list.
   * The list holds the `UIStrings` keys; their texts are looked up by Texts.
   */
  method CollectWarnings(current: NetworkConditions) returns (warnings: seq<UIString>)
    ensures warnings == Warnings(current)
  {
    ghost var order, active := WarningOrder, Active(current);
    warnings := [];
    if current.isThrottling {
      warnings := warnings + [NetworkThrottlingIsEnabled];
    }
    assert warnings == Select(order, active, 1);
    if current.cacheDisabled {
      warnings := warnings + [BrowserCacheDisabled];
    }
    assert warnings == Select(order, active, 2);
    if current.isIntercepting {
      warnings := warnings + [RequestsMayBeOverridden];
    }
    assert warnings == Select(order, active, 3);
    if current.isBlocking {
      warnings := warnings + [RequestsMayBeBlocked];
    }
    assert warnings == Select(order, active, 4);
    if current.isAcceptedEncodingOverrideSet {
      warnings := warnings + [AcceptedEncodingOverrideSet];
    }
  }

  /** `NetworkPanelIndicator`: the listener that keeps the Network tab's icon up to date. */
  class NetworkPanelIndicator {
    const view: InspectorView
    /** Whether the change listeners of lines 43-50 are registered. */
    var listening: bool

    /**
     * The constructor (lines 38-53): without a Network panel it returns at
     * once, registering nothing and leaving the icon alone; otherwise it
     * listens and updates the icon for the current conditions.
     */
    constructor(view: InspectorView, current: NetworkConditions)
      modifies view
      ensures this.view == view && listening == view.hasNetworkPanel
      ensures view.hasNetworkPanel ==> view.networkIcon == PanelIconFor(current)
      ensures !view.hasNetworkPanel ==> view.networkIcon == old(view.networkIcon)
    {
      this.view := view;
      listening := view.hasNetworkPanel;
      new;
      if view.hasNetworkPanel {
        UpdateVisibility(current);
      }
    }

    /**
     * `updateVisibility` (lines 54-79): collect the warnings from an empty
     * list and set the icon. The new icon depends on the current conditions
     * alone, so two updates under the same conditions agree.
     */
    method UpdateVisibility(current: NetworkConditions)
      requires listening
      modifies view
      ensures view.networkIcon == PanelIconFor(current)
    {
      var keys := CollectWarnings(current);
      var warnings := Texts(keys);
      var icon := NoIcon;
      if |warnings| > 0 {
        var tooltipContent := if |warnings| == 1 then warnings[0] else "· " + Join(warnings, "\n· ");
        icon := WarningIcon(tooltipContent);
      }
      view.networkIcon := icon;
    }
  }
}
