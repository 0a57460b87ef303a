/**
 * app/admin/ActivityFeed.tsx: the dashboard's list of recent registrations.
 * It starts from the list the server rendered, and every insert event of the
 * realtime channel puts the new talent in front and keeps four entries.
 */
module ActivityFeed {
  import Text
  import TimeAgo
  import NewestFirst

  datatype TalentActivity = TalentActivity(id: string, nombre: string, createdAt: string, active: bool)

  const FeedCap: nat := 4

  /** The word after the number in the feed's "Hace N ..." label. */
  function UnitWord(u: TimeAgo.Unit): string {
    match u
    case Minutes => "min"
    case Hours => "h"
    case Days => "d"
  }

  /** `formatTimeAgo`, given the elapsed milliseconds `now - created_at`. */
  function FormatTimeAgo(elapsedMs: int): (text: string)
    ensures |text| > 7 && text[..5] == "Hace "
  {
    var age := TimeAgo.Bucket(elapsedMs);
    "Hace " + Text.IntToString(age.count) + " " + UnitWord(age.unit)
  }

  /** The label names minutes under an hour, hours under a day, and days
      from then on. */
  lemma LabelNamesUnit(elapsedMs: int)
    ensures elapsedMs < TimeAgo.MsPerHour ==> Text.EndsWith(FormatTimeAgo(elapsedMs), " min")
    ensures TimeAgo.MsPerHour <= elapsedMs < TimeAgo.MsPerDay ==> Text.EndsWith(FormatTimeAgo(elapsedMs), " h")
    ensures TimeAgo.MsPerDay <= elapsedMs ==> Text.EndsWith(FormatTimeAgo(elapsedMs), " d")
  {
    var age := TimeAgo.Bucket(elapsedMs);
    var w := UnitWord(age.unit);
    var text := FormatTimeAgo(elapsedMs);
    assert text == ("Hace " + Text.IntToString(age.count)) + (" " + w);
  }

  /** The label is "Hace ", the floored count of the bucket's unit, a blank
      and the unit's word: the numeral between them reads back as the count. */
  lemma LabelShowsCount(elapsedMs: int)
    ensures var age := TimeAgo.Bucket(elapsedMs);
      var w := UnitWord(age.unit);
      var text := FormatTimeAgo(elapsedMs);
      && 5 <= |text| - |w| - 1
      && Text.EndsWith(text, " " + w)
      && var n := text[5..|text| - |w| - 1];
         && n != [] && (if n[0] == '-' then Text.AllDigits(n[1..]) else Text.AllDigits(n))
         && Text.ParseInt(n) == age.count
  {
    var age := TimeAgo.Bucket(elapsedMs);
    var w := UnitWord(age.unit);
    var n := Text.IntToString(age.count);
    var text := FormatTimeAgo(elapsedMs);
    assert text == ("Hace " + n) + (" " + w);
    SliceNumber(n, w);
    Text.IntToStringRoundTrip(age.count);
  }

  /** Two elapsed times get the same label exactly when they fall in the same
      bucket: the label shows the unit and the whole count without loss. */
  lemma LabelsDistinguishBuckets(e1: int, e2: int)
    ensures FormatTimeAgo(e1) == FormatTimeAgo(e2) <==> TimeAgo.Bucket(e1) == TimeAgo.Bucket(e2)
  {
    var a1, a2 := TimeAgo.Bucket(e1), TimeAgo.Bucket(e2);
    var s1, s2 := FormatTimeAgo(e1), FormatTimeAgo(e2);
    if s1 == s2 {
      var w1, w2 := UnitWord(a1.unit), UnitWord(a2.unit);
      var n1, n2 := Text.IntToString(a1.count), Text.IntToString(a2.count);
      assert s1 == ("Hace " + n1 + " ") + w1;
      assert s2 == ("Hace " + n2 + " ") + w2;
      assert s1[|s1| - 1] == w1[|w1| - 1];
      assert s2[|s2| - 1] == w2[|w2| - 1];
      assert a1.unit == a2.unit;
      SliceNumber(n1, w1);
      SliceNumber(n2, w2);
      Text.IntToStringRoundTrip(a1.count);
      Text.IntToStringRoundTrip(a2.count);
    }
  }

  lemma SliceNumber(n: string, w: string)
    ensures var s := "Hace " + n + " " + w; s[5..|s| - |w| - 1] == n
  {
    var s := "Hace " + n + " " + w;
    assert s == "Hace " + (n + (" " + w));
    assert s[5..] == n + (" " + w);
    assert s[5..|s| - |w| - 1] == s[5..][..|n|];
  }

  /** The status column: "Activo" for active talents, "Inactivo" otherwise. */
  function StatusLabel(active: bool): (text: string)
    ensures text == "Activo" <==> active
    ensures text == "Inactivo" <==> !active
  {
    if active then "Activo" else "Inactivo"
  }

  /** The `activities` state of one mounted feed. */
  class Feed {
    var activities: seq<TalentActivity>

    /** `useState(initialTalents)`. */
    constructor (initialTalents: seq<TalentActivity>)
      ensures activities == initialTalents
    {
      activities := initialTalents;
    }

    /** The insert handler: `[newTalent, ...prev].slice(0, 4)`. */
    method OnInsert(newTalent: TalentActivity)
      modifies this
      ensures activities == NewestFirst.PrependCapped(newTalent, old(activities), FeedCap)
      ensures |activities| <= FeedCap && activities[0] == newTalent
      ensures activities[1..] == old(activities)[..|activities| - 1]
    {
      activities := ([newTalent] + activities)[..NewestFirst.Min(FeedCap, |activities| + 1)];
    }
  }

  /** After one or more insert events the feed holds the newest four entries
      of "events newest first, then the initial list". */
  lemma FeedAfterEvents(initial: seq<TalentActivity>, events: seq<TalentActivity>)
    requires events != []
    ensures |NewestFirst.AfterEvents(initial, events, FeedCap)| <= FeedCap
    ensures NewestFirst.AfterEvents(initial, events, FeedCap)[0] == events[|events| - 1]
  {
    NewestFirst.AfterEventsIsNewestPrefix(initial, events, FeedCap);
  }
}
