/**
 * Deadline labels and the category filter of public/scripts/dashboard.js.
 * Times are whole milliseconds; parsing a date string and formatting a
 * locale date are parameters.
 */
module DashboardScript {
  import opened TaskListView

  const MsPerDay: int := 86400000

  /** `Math.ceil(a / b)` for a positive divisor. */
  function CeilDiv(a: int, b: int): (q: int)
    requires b > 0
    ensures (q - 1) * b < a <= q * b
  {
    -((-a) / b)
  }

  /** `diffDays`: the difference rounded up to whole days. */
  function DiffDays(deadlineMs: int, nowMs: int): int {
    CeilDiv(deadlineMs - nowMs, MsPerDay)
  }

  datatype DeadlineLabel =
    | Overdue(days: nat)
    | Today
    | Tomorrow
    | InDays(days: nat)
    | LocaleDate(ms: int)

  /** `formatDeadline` on the label level. */
  function FormatDeadline(deadlineMs: int, nowMs: int): (l: DeadlineLabel)
    ensures l.Overdue? ==> l.days > 0
    ensures l.InDays? ==> 2 <= l.days <= 7
  {
    var d := DiffDays(deadlineMs, nowMs);
    if d < 0 then Overdue(-d)
    else if d == 0 then Today
    else if d == 1 then Tomorrow
    else if d <= 7 then InDays(d)
    else LocaleDate(deadlineMs)
  }

  /** The labels by the rounded-up day count, stated on the raw millisecond difference. */
  lemma FormatDeadlineBands(deadlineMs: int, nowMs: int)
    ensures var diff := deadlineMs - nowMs;
      && (diff <= -MsPerDay <==> FormatDeadline(deadlineMs, nowMs).Overdue?)
      && (-MsPerDay < diff <= 0 <==> FormatDeadline(deadlineMs, nowMs) == Today)
      && (0 < diff <= MsPerDay <==> FormatDeadline(deadlineMs, nowMs) == Tomorrow)
      && (MsPerDay < diff <= 7 * MsPerDay <==> FormatDeadline(deadlineMs, nowMs).InDays?)
      && (7 * MsPerDay < diff <==> FormatDeadline(deadlineMs, nowMs).LocaleDate?)
  {
    var diff := deadlineMs - nowMs;
    var d := DiffDays(deadlineMs, nowMs);
    assert (d - 1) * MsPerDay < diff <= d * MsPerDay;
    if d < 0 { assert d * MsPerDay <= -MsPerDay; }
    if d >= 8 { assert (d - 1) * MsPerDay >= 7 * MsPerDay; }
    if 2 <= d <= 7 { assert d * MsPerDay <= 7 * MsPerDay; }
  }

  /** A deadline less than a whole day past reads "today", and an overdue count is the whole days past. */
  lemma OverdueCountsWholeDays(deadlineMs: int, nowMs: int)
    ensures nowMs - MsPerDay < deadlineMs <= nowMs ==> FormatDeadline(deadlineMs, nowMs) == Today
    ensures FormatDeadline(deadlineMs, nowMs).Overdue? ==>
      var n := FormatDeadline(deadlineMs, nowMs).days;
      n * MsPerDay <= nowMs - deadlineMs < (n + 1) * MsPerDay
  {
    FormatDeadlineBands(deadlineMs, nowMs);
    var d := DiffDays(deadlineMs, nowMs);
    assert (d - 1) * MsPerDay < deadlineMs - nowMs <= d * MsPerDay;
  }

  function DigitChar(n: nat): char
    requires n < 10
  {
    "0123456789"[n]
  }

  /** Decimal digits of a natural number, as a template literal prints it. */
  function NatToString(n: nat): (s: string)
    ensures |s| >= 1
  {
    if n < 10 then [DigitChar(n)] else NatToString(n / 10) + [DigitChar(n % 10)]
  }

  /** The text shown for a label. */
  function LabelText(l: DeadlineLabel, localeDate: int -> string): string {
    match l
    case Overdue(n) => "Spóźnione o " + NatToString(n) + " dni"
    case Today => "Dzisiaj"
    case Tomorrow => "Jutro"
    case InDays(n) => "Za " + NatToString(n) + " dni"
    case LocaleDate(ms) => localeDate(ms)
  }

  /** `formatAllDeadlines` leaves an empty text and "Brak terminu" as they are. */
  predicate KeepsText(text: string) {
    text == "" || text == "Brak terminu"
  }

  /**
   * `formatAllDeadlines`: every `.deadline-value` text that is a date is
   * replaced by its label; empty texts and "Brak terminu" stay.
   */
  method FormatAllDeadlines(texts: array<string>, parse: string -> int, nowMs: int,
                            localeDate: int -> string)
    modifies texts
    ensures forall i :: 0 <= i < texts.Length && KeepsText(old(texts[i])) ==> texts[i] == old(texts[i])
    ensures forall i :: 0 <= i < texts.Length && !KeepsText(old(texts[i])) ==>
      texts[i] == LabelText(FormatDeadline(parse(old(texts[i])), nowMs), localeDate)
  {
    var i := 0;
    while i < texts.Length
      invariant 0 <= i <= texts.Length
      invariant forall j :: i <= j < texts.Length ==> texts[j] == old(texts[j])
      invariant forall j :: 0 <= j < i && KeepsText(old(texts[j])) ==> texts[j] == old(texts[j])
      invariant forall j :: 0 <= j < i && !KeepsText(old(texts[j])) ==>
        texts[j] == LabelText(FormatDeadline(parse(old(texts[j])), nowMs), localeDate)
    {
      var deadlineStr := texts[i];
      if deadlineStr != "" && deadlineStr != "Brak terminu" {
        texts[i] := LabelText(FormatDeadline(parse(deadlineStr), nowMs), localeDate);
      }
      i := i + 1;
    }
  }

  /**
   * `filterTasks`: filters the items; afterwards the list shows one empty
   * message exactly when nothing is visible (an empty list included), and
   * never a second one.
   */
  method FilterTasks(list: TaskList, categoryId: string)
    requires list.Valid()
    modifies list, list.hidden
    ensures list.Valid()
    ensures forall i :: 0 <= i < list.hidden.Length ==> list.hidden[i] == !Visible(categoryId, list.categoryIds[i])
    ensures list.emptyMessages == 1 <==>
      forall i :: 0 <= i < |list.categoryIds| ==> !Visible(categoryId, list.categoryIds[i])
  {
    list.ShowMatching(categoryId);
    var visible := list.VisibleCount();
    if visible == 0 {
      if list.emptyMessages == 0 {
        list.emptyMessages := 1;
      }
    } else if list.emptyMessages > 0 {
      list.emptyMessages := list.emptyMessages - 1;
    }
  }
}
