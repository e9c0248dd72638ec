/** From publishing to reading: what the settled pipeline means for the newest-first feed. */
module EndToEnd {
  import opened FeedRepo
  import opened FeedQuery
  import opened FeedLatest
  import P = Pipeline
  import T = Timeline

  /** Once every event is settled and the last trim took effect, a reader of the feed can see every video
      that was ever published if and only if no millisecond spans the 1000th video and the next. */
  lemma SettledFeedShowsAll(start: P.State, acts: seq<P.Action>, db: Table)
    requires P.Starts(start) && P.Possible(start, acts) && P.Settled(P.After(start, acts))
    requires WellFormed(db) && Times(db) == P.After(start, acts).videos && db != map[]
    requires |P.After(start, acts).timeline| <= T.TIMELINE_LIMIT
    ensures var z := P.After(start, acts).timeline;
            && z != map[] && Within(db, z)
            && (Visible(db, z) == Rows(db) <==> SharpAt(Rows(db), T.TIMELINE_LIMIT))
  {
    var s := P.After(start, acts);
    P.SettledTimeline(start, acts);
    var id :| id in db;
    var all := T.Entries(s.videos);
    assert T.Entry(s.videos[id], id) in all;
    assert T.Newest(all, T.TIMELINE_LIMIT) != [];
    assert T.Newest(all, T.TIMELINE_LIMIT)[0] in T.NewestSet(all, T.TIMELINE_LIMIT);
    assert T.Entries(s.timeline) != {};
    NewestShowsAll(db, s.timeline);
  }
}
