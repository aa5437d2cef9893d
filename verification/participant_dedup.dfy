/** The per-participant guard at the top of `AudioApp.on_video_frame` in
    gpt4v-compliments.py: leading and trailing `"` characters are stripped from
    the participant id, and a frame is processed only for an id not seen
    before. */
module ParticipantDedup {

  const Quote: char := '"'

  /** Number of leading `"` characters. */
  function LeadingQuotes(s: string): (n: nat)
    ensures n <= |s|
    ensures forall k :: 0 <= k < n ==> s[k] == Quote
    ensures n < |s| ==> s[n] != Quote
  {
    if s != [] && s[0] == Quote then 1 + LeadingQuotes(s[1..]) else 0
  }

  /** Number of trailing `"` characters. */
  function TrailingQuotes(s: string): (n: nat)
    ensures n <= |s|
    ensures forall k :: |s| - n <= k < |s| ==> s[k] == Quote
    ensures n < |s| ==> s[|s| - n - 1] != Quote
  {
    if s != [] && s[|s| - 1] == Quote then 1 + TrailingQuotes(s[..|s| - 1]) else 0
  }

  /** `u` is `s` with the first `i` and the last `|s| - i - |u|` characters
      cut off, all of them quotes. */
  predicate StrippedAt(s: string, u: string, i: int)
  {
    && 0 <= i <= |s| - |u|
    && u == s[i..i + |u|]
    && (forall k :: 0 <= k < i ==> s[k] == Quote)
    && (forall k :: i + |u| <= k < |s| ==> s[k] == Quote)
  }

  /** Python's `participant_id.strip('"')`: drops every leading and every
      trailing `"`. The result is a contiguous slice of the id, everything
      cut off is quotes, and it neither starts nor ends with a quote. */
  function StripQuotes(participantId: string): (uuid: string)
    ensures |uuid| <= |participantId|
    ensures exists i :: StrippedAt(participantId, uuid, i)
    ensures uuid != [] ==> uuid[0] != Quote && uuid[|uuid| - 1] != Quote
  {
    var lead := LeadingQuotes(participantId);
    var rest := participantId[lead..];
    var trail := TrailingQuotes(rest);
    var uuid := rest[..|rest| - trail];
    assert uuid == participantId[lead..lead + |uuid|];
    assert forall k :: lead + |uuid| <= k < |participantId| ==> participantId[k] == rest[k - lead];
    assert StrippedAt(participantId, uuid, lead);
    uuid
  }

  /** Stripping twice is stripping once. */
  lemma StripQuotesIdempotent(s: string)
    ensures StripQuotes(StripQuotes(s)) == StripQuotes(s)
  {
    var u := StripQuotes(s);
    StripUnquotedIsIdentity(u);
  }

  /** A string that neither starts nor ends with a quote is left alone. */
  lemma StripUnquotedIsIdentity(u: string)
    requires u != [] ==> u[0] != Quote && u[|u| - 1] != Quote
    ensures StripQuotes(u) == u
  {
    assert LeadingQuotes(u) == 0;
    assert u[0..] == u;
    assert TrailingQuotes(u) == 0;
  }

  /** An id and the same id wrapped in quotes name the same participant. */
  lemma QuotedIdStripsToSame(u: string)
    requires u != [] ==> u[0] != Quote && u[|u| - 1] != Quote
    ensures StripQuotes([Quote] + u + [Quote]) == u
  {
    var q := [Quote] + u + [Quote];
    var lead := LeadingQuotes(q);
    assert q[1..] == u + [Quote];
    assert lead == 1 + LeadingQuotes(u + [Quote]);
    if u == [] {
      assert LeadingQuotes(q[1..]) == 1;
    } else {
      assert (u + [Quote])[0] == u[0];
      assert LeadingQuotes(u + [Quote]) == 0;
    }
    var rest := q[lead..];
    if u == [] {
      assert rest == [];
    } else {
      assert rest == u + [Quote];
      assert rest[..|rest| - 1] == u;
      assert TrailingQuotes(rest) == 1 + TrailingQuotes(u);
      assert TrailingQuotes(u) == 0;
    }
  }

  /** The dedup check on one video frame: returns the updated seen set and
      whether the frame goes on to be described (`true`) or is dropped by the
      early return (`false`). */
  function OnVideoFrame(seen: set<string>, participantId: string): (r: (set<string>, bool))
    ensures r.1 <==> StripQuotes(participantId) !in seen
    ensures r.0 == seen + {StripQuotes(participantId)}
    ensures r.1 ==> |r.0| == |seen| + 1
    ensures !r.1 ==> r.0 == seen
  {
    var uuid := StripQuotes(participantId);
    if uuid in seen then (seen, false) else (seen + {uuid}, true)
  }

  /** Frames delivered in order; returns the final seen set and the uuids
      whose frames went past the check, in order. */
  function ProcessFrames(seen: set<string>, ids: seq<string>): (r: (set<string>, seq<string>))
  {
    if ids == [] then (seen, [])
    else
      var r0 := ProcessFrames(seen, ids[..|ids| - 1]);
      var r1 := OnVideoFrame(r0.0, ids[|ids| - 1]);
      (r1.0, if r1.1 then r0.1 + [StripQuotes(ids[|ids| - 1])] else r0.1)
  }

  ghost predicate NoDuplicates(s: seq<string>)
  {
    forall i, j :: 0 <= i < j < |s| ==> s[i] != s[j]
  }

  /** The stripped ids of a run of frames. */
  function Arrived(ids: seq<string>): (us: set<string>)
  {
    if ids == [] then {} else Arrived(ids[..|ids| - 1]) + {StripQuotes(ids[|ids| - 1])}
  }

  lemma {:induction false} ArrivedAreStrippedIds(ids: seq<string>)
    ensures forall u :: u in Arrived(ids) <==> exists id :: id in ids && StripQuotes(id) == u
  {
    if ids != [] {
      var init, id := ids[..|ids| - 1], ids[|ids| - 1];
      ArrivedAreStrippedIds(init);
      assert ids == init + [id];
      assert forall x :: x in ids <==> x in init || x == id;
    }
  }

  /** The seen set after a run of frames: the initial one plus every stripped
      id that arrived. */
  lemma {:induction false} SeenGrowsByArrivals(seen: set<string>, ids: seq<string>)
    ensures ProcessFrames(seen, ids).0 == seen + Arrived(ids)
  {
    if ids != [] {
      SeenGrowsByArrivals(seen, ids[..|ids| - 1]);
    }
  }

  /** A uuid goes past the check in a run exactly when it ends up seen and
      was not seen at the start. */
  lemma {:induction false} ProcessedAreTheNewlySeen(seen: set<string>, ids: seq<string>)
    ensures forall u :: u in ProcessFrames(seen, ids).1 <==> u in ProcessFrames(seen, ids).0 && u !in seen
    ensures seen <= ProcessFrames(seen, ids).0
  {
    if ids != [] {
      var init, id := ids[..|ids| - 1], ids[|ids| - 1];
      ProcessedAreTheNewlySeen(seen, init);
      var r0 := ProcessFrames(seen, init);
      var uuid := StripQuotes(id);
      if uuid !in r0.0 {
        var out := r0.1 + [uuid];
        assert forall u :: u in out <==> u in r0.1 || u == uuid;
      }
    }
  }

  /** No uuid goes past the check twice in a run. */
  lemma {:induction false} ProcessedHasNoDuplicates(seen: set<string>, ids: seq<string>)
    ensures NoDuplicates(ProcessFrames(seen, ids).1)
  {
    if ids != [] {
      var init, id := ids[..|ids| - 1], ids[|ids| - 1];
      ProcessedHasNoDuplicates(seen, init);
      ProcessedAreTheNewlySeen(seen, init);
      var r0 := ProcessFrames(seen, init);
      var uuid := StripQuotes(id);
      if uuid !in r0.0 {
        var out := r0.1 + [uuid];
        assert forall i :: 0 <= i < |r0.1| ==> out[i] == r0.1[i] && r0.1[i] in r0.0;
      }
    }
  }

  /** Over any sequence of frames each participant passes the check at most
      once, a participant already seen never passes, and exactly the distinct
      stripped ids not seen before do pass. */
  lemma ProcessedAtMostOnce(seen: set<string>, ids: seq<string>)
    ensures NoDuplicates(ProcessFrames(seen, ids).1)
    ensures forall u :: u in ProcessFrames(seen, ids).1 <==>
              u !in seen && exists id :: id in ids && StripQuotes(id) == u
  {
    ProcessedHasNoDuplicates(seen, ids);
    ProcessedAreTheNewlySeen(seen, ids);
    SeenGrowsByArrivals(seen, ids);
    ArrivedAreStrippedIds(ids);
  }
}
