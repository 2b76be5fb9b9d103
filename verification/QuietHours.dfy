/** Quiet hours: an alert raised in them becomes visible when they end. The local zone has a fixed offset. */
module QuietHours {
  import opened Prelude

  const DAY: int := 86_400_000_000  // microseconds

  /** Start and end of the quiet hours as times of day, each possibly not configured. */
  datatype Hours = Hours(start: Option<nat>, end: Option<nat>, offset: int)

  predicate ValidHours(q: Hours) {
    (q.start.Some? ==> q.start.value < DAY) && (q.end.Some? ==> q.end.value < DAY)
  }

  datatype Visible = Visible(overnight: bool, at: int)

  function Visibility(q: Hours, now: int): Visible {
    if q.start.None? || q.end.None? || q.start == q.end then Visible(false, now) else
      var local := now + q.offset;
      var date, current := local / DAY, local % DAY;
      var start, end := q.start.value, q.end.value;
      var inQuiet := if start < end then start <= current < end else current >= start || current < end;
      var visibleDate := if start >= end && current >= start then date + 1 else date;
      if !inQuiet then Visible(false, now) else Visible(true, visibleDate * DAY + end - q.offset)
  }

  /** The quiet hours that begin on day `d`, as a stretch of local time; past midnight when they end earlier
      in the day than they begin. */
  ghost predicate InNight(q: Hours, d: int, local: int)
    requires q.start.Some? && q.end.Some?
  {
    var close := if q.end.value < q.start.value then (d + 1) * DAY + q.end.value else d * DAY + q.end.value;
    d * DAY + q.start.value <= local < close
  }

  ghost predicate Quiet(q: Hours, t: int) {
    q.start.Some? && q.end.Some? && var local := t + q.offset; exists d :: InNight(q, d, local)
  }

  /** The quiet stretch that holds `local` begins on its own day or the day before. */
  lemma NightOf(q: Hours, d: int, local: int)
    requires ValidHours(q) && q.start.Some? && q.end.Some? && InNight(q, d, local)
    ensures d == local / DAY || (d == local / DAY - 1 && q.end.value < q.start.value)
  {
    var date := local / DAY;
    assert date * DAY <= local < (date + 1) * DAY;
    assert d <= date by { if d > date { Scale(date + 1, d); } }
    assert d >= date - 1 by { if d < date - 1 { Scale(d + 2, date); } }
    if d == date - 1 { assert (d + 1) * DAY == date * DAY; }
  }

  lemma Scale(a: int, b: int)
    requires a <= b
    ensures a * DAY <= b * DAY
  {
  }

  lemma QuietIsBranch(q: Hours, now: int)
    requires ValidHours(q) && q.start.Some? && q.end.Some? && q.start != q.end
    ensures Quiet(q, now) <==> Visibility(q, now).overnight
  {
    var local := now + q.offset;
    var date := local / DAY;
    assert local == date * DAY + local % DAY;
    if Quiet(q, now) {
      var d :| InNight(q, d, local);
      NightOf(q, d, local);
    }
    if Visibility(q, now).overnight {
      if q.start.value < q.end.value || local % DAY >= q.start.value {
        assert InNight(q, date, local);
      } else {
        assert InNight(q, date - 1, local);
      }
    }
  }

  /** The flag says whether `now` lies in the quiet hours, and the visible instant is the first one from
      `now` on that does not. */
  lemma VisibleAtFirstQuietEnd(q: Hours, now: int)
    requires ValidHours(q)
    ensures var v := Visibility(q, now);
            && (v.overnight <==> Quiet(q, now))
            && v.at >= now && !Quiet(q, v.at)
            && forall t :: now <= t < v.at ==> Quiet(q, t)
  {
    var v := Visibility(q, now);
    if q.start.Some? && q.end.Some? {
      if q.start == q.end {
        assert forall d, t :: !InNight(q, d, t);
      } else {
        QuietIsBranch(q, now);
        if v.overnight {
          EndIsOutside(q, now);
          forall t | now <= t < v.at ensures Quiet(q, t) {
            StillQuiet(q, now, t);
          }
        }
      }
    }
  }

  lemma EndIsOutside(q: Hours, now: int)
    requires ValidHours(q) && q.start.Some? && q.end.Some? && q.start != q.end && Visibility(q, now).overnight
    ensures Visibility(q, now).at >= now && !Quiet(q, Visibility(q, now).at)
  {
    var local := now + q.offset;
    var at := Visibility(q, now).at;
    var date := if q.start.value >= q.end.value && local % DAY >= q.start.value then local / DAY + 1 else local / DAY;
    assert local == (local / DAY) * DAY + local % DAY;
    assert at + q.offset == date * DAY + q.end.value;
    assert (at + q.offset) / DAY == date && (at + q.offset) % DAY == q.end.value;
    QuietIsBranch(q, at);
  }

  lemma StillQuiet(q: Hours, now: int, t: int)
    requires ValidHours(q) && q.start.Some? && q.end.Some? && q.start != q.end && Visibility(q, now).overnight
    requires now <= t < Visibility(q, now).at
    ensures Quiet(q, t)
  {
    var local := now + q.offset;
    var date := local / DAY;
    assert local == date * DAY + local % DAY;
    var d := if q.start.value < q.end.value || local % DAY >= q.start.value then date else date - 1;
    assert InNight(q, d, t + q.offset);
  }
}
