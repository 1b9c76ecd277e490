/**
 * What the widget shows for one proxy entry, derived from its latest delay
 * and the first group's selection. Delay 0 means "error": it drives the grey
 * background, the `-` label, the dimmed style and the ignored click.
 */
module Display {
  import opened Wrappers
  import opened ProxyModel
  import TagColors
  import Decimal

  const ErrorBackground := "#E5E7EB"

  predicate HasError(delay: int) {
    delay == 0
  }

  /** The tag background: the error grey, or the colour looked up for the delay. */
  function Background(delay: int): Option<string> {
    if HasError(delay) then Some(ErrorBackground) else TagColors.ColorOf(delay)
  }

  /** The delay text: `-` for delay 0, otherwise the number followed by `ms`. */
  function Label(delay: int): string {
    if delay == 0 then "-" else Decimal.IntToString(delay) + "ms"
  }

  /** The entry is the first group's current selection. */
  predicate IsCurrent(groups: seq<Group>, name: string)
    requires |groups| > 0
  {
    groups[0].now == name
  }

  /** A click on the entry starts a selection change. */
  predicate ClickSelects(delay: int) {
    !HasError(delay)
  }

  /** The decisions behind one rendering of the entry. */
  datatype View = View(
    typeTag: string,
    background: Option<string>,
    name: string,
    delayText: string,
    dimmed: bool,
    selected: bool,
    clickable: bool,
    udpBadge: bool)

  function Render(config: ProxyConfig, groups: seq<Group>): View
    requires |groups| > 0
  {
    var delay := LatestDelay(config.history);
    View(config.kind, Background(delay), config.name, Label(delay),
         HasError(delay), IsCurrent(groups, config.name), ClickSelects(delay), config.udp)
  }

  /** The full background table: error grey at 0, the colour bands elsewhere. */
  lemma BackgroundBands(delay: int)
    ensures Background(delay) == Some(
              if delay == 0 then ErrorBackground
              else if delay < 0 then TagColors.Grey
              else if delay <= 260 then TagColors.Green
              else if delay <= 600 then TagColors.Orange
              else TagColors.Red)
  {
    TagColors.ColorBands(delay);
  }

  /** The label is `-` exactly when the delay is 0. */
  lemma LabelIsDashIffZero(delay: int)
    ensures Label(delay) == "-" <==> delay == 0
  {
  }

  /** A non-error label ends in `ms` and its number reads back as the delay. */
  lemma LabelShowsDelay(delay: int)
    requires delay != 0
    ensures var l := Label(delay);
            && |l| >= 3 && l[|l| - 2..] == "ms"
            && l[..|l| - 2] == Decimal.IntToString(delay)
            && Decimal.ParseInt(l[..|l| - 2]) == delay
  {
    var l := Label(delay);
    assert l[..|l| - 2] == Decimal.IntToString(delay);
    Decimal.ParseIntToString(delay);
  }

  /** Different delays give different labels. */
  lemma LabelInjective(d1: int, d2: int)
    requires Label(d1) == Label(d2)
    ensures d1 == d2
  {
    LabelIsDashIffZero(d1);
    LabelIsDashIffZero(d2);
    if d1 != 0 {
      LabelShowsDelay(d1);
      LabelShowsDelay(d2);
    }
  }

  /**
   * One fact decides the error look: the entry is dimmed, ignores clicks,
   * shows `-` and has the error background exactly when its latest delay is 0.
   * It is highlighted exactly when the first group has it selected.
   */
  lemma RenderErrorRules(config: ProxyConfig, groups: seq<Group>)
    requires |groups| > 0
    ensures var v := Render(config, groups);
            var failed := LatestDelay(config.history) == 0;
            && (v.dimmed <==> failed)
            && (v.clickable <==> !failed)
            && (v.delayText == "-" <==> failed)
            && (v.background == Some(ErrorBackground) <==> failed)
            && v.background.Some?
            && (v.selected <==> groups[0].now == config.name)
  {
    var delay := LatestDelay(config.history);
    LabelIsDashIffZero(delay);
    BackgroundBands(delay);
  }
}
