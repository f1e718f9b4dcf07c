/**
 * One pass of the polling loop in `bot_on_ready_boot` of classmate.py: every
 * watched course is re-fetched; a course that has opened, or whose page is
 * gone (404), has its followers notified and is collected for removal; the
 * removals are applied after the whole dictionary has been visited. The
 * fetch is a function from a course's stored arguments to its outcome in this
 * pass; the sleeps between fetches and between passes are not modelled.
 */
module Poller {
  import opened Wrappers
  import opened Text
  import opened Request
  import opened Notifier
  import opened WatchList
  import opened Registry

  /** What fetching a course's page gives the loop. */
  datatype FetchOutcome =
    | NotFound
    | OtherError
    | Fetched(status: Option<string>, sectionNotes: Option<string>, sectionText: Option<string>)

  /**
   * The loop's `except` clause: an error whose first extra argument is 404 is
   * "not found", every other failure is an ordinary error that is retried.
   */
  function Classify(r: Result<Section, BotError>): (o: FetchOutcome)
    ensures o.NotFound? <==>
      r.Failure? && r.error.BotException? && |r.error.extra| > 0 && r.error.extra[0] == StatusCode(404)
    ensures o.Fetched? <==> r.Success?
    ensures r.Success? ==> o == Fetched(r.value.status, r.value.sectionNotes, r.value.sectionText)
  {
    match r
    case Success(section) => Fetched(section.status, section.sectionNotes, section.sectionText)
    case Failure(BotException(_, extra)) =>
      if |extra| > 0 && extra[0] == StatusCode(404) then NotFound else OtherError
    case Failure(_) => OtherError
  }

  /** A course counts as not found exactly when its request went out and the server answered 404. */
  lemma ClassifyGetData(args: seq<string>, year: string, semester: string,
                        respond: string -> Response, parse: string -> Option<Section>)
    ensures Classify(GetData(args, year, semester, respond, parse)) == NotFound
            <==> RequestUrl(args, year, semester).Some? && respond(RequestUrl(args, year, semester).value).status == 404
  {
    NotFoundExactly(args, year, semester, respond, parse);
  }

  /** A missing enrollment status reads as the empty string. */
  function StatusText(status: Option<string>): string {
    if status.Some? then status.value else ""
  }

  const NoRestriction := "None provided."

  /** The restriction text: the section notes, else the section text, else a placeholder. */
  function RestrictionText(sectionNotes: Option<string>, sectionText: Option<string>): string {
    if sectionNotes.Some? then sectionNotes.value
    else if sectionText.Some? then sectionText.value
    else NoRestriction
  }

  /** The end of the "is now open" message, which depends on whether the status says "Restricted". */
  function OpenSuffix(status: string, sectionNotes: Option<string>, sectionText: Option<string>): string {
    if Contains(status, "Restricted") then " (Restriction: " + RestrictionText(sectionNotes, sectionText) + ")"
    else " (No listed restrictions)"
  }

  function OpenMessage(title: string, crn: Crn, suffix: string): string {
    Label(title, crn) + " is now open" + suffix
  }

  const MissingNotice := " was not found. It may have been de-listed from the courses page. "
    + "Please check to see if a section was changed. (You will be removed from the watch list for this course)"

  function MissingMessage(title: string, crn: Crn): string {
    Label(title, crn) + MissingNotice
  }

  /** A terminal outcome ends the watch: the page is gone, or the status says "Open". */
  predicate Terminal(o: FetchOutcome) {
    o.NotFound? || (o.Fetched? && Contains(StatusText(o.status), "Open"))
  }

  /** What the loop does with one course. */
  datatype Decision = Keep | Retire(message: string, urgent: bool)

  function Decide(o: FetchOutcome, entry: Entry, crn: Crn): (decision: Decision)
    ensures decision.Retire? <==> Terminal(o)
    ensures decision.Retire? ==> (decision.urgent <==> o.Fetched?)
  {
    match o
    case NotFound => Retire(MissingMessage(entry.courseTitle, crn), false)
    case OtherError => Keep
    case Fetched(status, notes, text) =>
      var s := StatusText(status);
      if Contains(s, "Open") then Retire(OpenMessage(entry.courseTitle, crn, OpenSuffix(s, notes, text)), true)
      else Keep
  }

  /** A page without an enrollment status is not open: the course stays watched. */
  lemma MissingStatusKeeps(entry: Entry, crn: Crn, notes: Option<string>, text: Option<string>)
    ensures Decide(Fetched(None, notes, text), entry, crn) == Keep
  {
    assert !Contains("", "Open");
  }

  /** An open section names its restriction only when restricted, falling back from notes to text to a placeholder. */
  lemma OpenMessageText(entry: Entry, crn: Crn, status: string, notes: Option<string>, text: Option<string>)
    requires Contains(status, "Open")
    ensures Decide(Fetched(Some(status), notes, text), entry, crn).message ==
      Label(entry.courseTitle, crn) + " is now open" +
      (if !Contains(status, "Restricted") then " (No listed restrictions)"
       else if notes.Some? then " (Restriction: " + notes.value + ")"
       else if text.Some? then " (Restriction: " + text.value + ")"
       else " (Restriction: None provided.)")
  {
  }

  /** What visiting one course adds to `crns_to_remove`. */
  function Collected(entries: map<Crn, Entry>, fetch: seq<string> -> FetchOutcome, c: Crn): seq<Crn> {
    if c in entries && Terminal(fetch(entries[c].identity)) then [c] else []
  }

  /** The CRNs the loop collects in `crns_to_remove`, in visiting order. */
  function Planned(keys: seq<Crn>, entries: map<Crn, Entry>, fetch: seq<string> -> FetchOutcome): seq<Crn> {
    if keys == [] then []
    else Planned(keys[..|keys| - 1], entries, fetch) + Collected(entries, fetch, keys[|keys| - 1])
  }

  /** The sends of visiting one course. */
  function CourseSends(entries: map<Crn, Entry>, fetch: seq<string> -> FetchOutcome, c: Crn): seq<Send> {
    if c !in entries then []
    else match Decide(fetch(entries[c].identity), entries[c], c)
      case Keep => []
      case Retire(message, urgent) => NotifyTrace(entries[c].notifyList, message, urgent)
  }

  /** A course whose outcome is not terminal (an ordinary error, or not open) sends nothing and is not collected. */
  lemma KeptCourseSilent(entries: map<Crn, Entry>, fetch: seq<string> -> FetchOutcome, c: Crn)
    requires c in entries && !Terminal(fetch(entries[c].identity))
    ensures CourseSends(entries, fetch, c) == [] && Collected(entries, fetch, c) == []
  {
  }

  /** The sends of one pass, course by course in visiting order. */
  function CycleTrace(keys: seq<Crn>, entries: map<Crn, Entry>, fetch: seq<string> -> FetchOutcome): seq<Send> {
    if keys == [] then []
    else CycleTrace(keys[..|keys| - 1], entries, fetch) + CourseSends(entries, fetch, keys[|keys| - 1])
  }

  /** The courses a pass retires. */
  function Retired(d: Dict, fetch: seq<string> -> FetchOutcome): set<Crn> {
    set c | c in d.entries && Terminal(fetch(d.entries[c].identity))
  }

  /** The dictionary after a pass: the retired courses are gone, the rest untouched and in order. */
  function AfterCycle(d: Dict, fetch: seq<string> -> FetchOutcome): Dict {
    Dict(Without(d.keys, Retired(d, fetch)), d.entries - Retired(d, fetch))
  }

  function Elems(s: seq<Crn>): set<Crn> {
    set c | c in s
  }

  lemma {:induction false} PlannedMembers(keys: seq<Crn>, entries: map<Crn, Entry>, fetch: seq<string> -> FetchOutcome)
    requires NoDuplicates(keys)
    ensures NoDuplicates(Planned(keys, entries, fetch))
    ensures forall c :: c in Planned(keys, entries, fetch) <==> c in keys && c in entries && Terminal(fetch(entries[c].identity))
  {
    if keys != [] {
      var front := keys[..|keys| - 1];
      assert NoDuplicates(front);
      PlannedMembers(front, entries, fetch);
      assert keys == front + [keys[|keys| - 1]];
    }
  }

  /** The CRNs collected for removal are exactly the courses the pass retires. */
  lemma PlannedIsRetired(d: Dict, fetch: seq<string> -> FetchOutcome)
    requires WellFormed(d)
    ensures Elems(Planned(d.keys, d.entries, fetch)) == Retired(d, fetch)
  {
    PlannedMembers(d.keys, d.entries, fetch);
  }

  /** The dictionary once the keys in `done` have been deleted one by one. */
  function DeletedAll(d: Dict, done: set<Crn>): Dict {
    Dict(Without(d.keys, done), d.entries - done)
  }

  /** One step of the removal loop: the next collected CRN is still present, and deleting it extends `done`. */
  lemma RemovalStep(d: Dict, planned: seq<Crn>, i: nat)
    requires NoDuplicates(planned) && i < |planned|
    requires forall c :: c in planned ==> c in d.entries
    ensures planned[i] in DeletedAll(d, Elems(planned[..i])).entries
    ensures Delete(DeletedAll(d, Elems(planned[..i])), planned[i]) == DeletedAll(d, Elems(planned[..i + 1]))
  {
    var done := Elems(planned[..i]);
    assert planned[i] !in done;
    assert planned[..i + 1] == planned[..i] + [planned[i]];
    assert Elems(planned[..i + 1]) == done + {planned[i]};
    WithoutTwice(d.keys, done, {planned[i]});
  }

  /** Deleting every collected CRN gives the dictionary AfterCycle describes, and keeps it valid. */
  lemma RemovalDone(d: Dict, fetch: seq<string> -> FetchOutcome, limit: nat)
    requires WellFormed(d) && WithinLimit(d, limit)
    ensures DeletedAll(d, Elems(Planned(d.keys, d.entries, fetch))) == AfterCycle(d, fetch)
    ensures WellFormed(AfterCycle(d, fetch)) && WithinLimit(AfterCycle(d, fetch), limit)
  {
    PlannedIsRetired(d, fetch);
    CycleKeepsValid(d, fetch, limit);
  }

  /** One pass keeps the dictionary well formed, and only ever lowers a user's count. */
  lemma CycleKeepsValid(d: Dict, fetch: seq<string> -> FetchOutcome, limit: nat)
    requires WellFormed(d) && WithinLimit(d, limit)
    ensures WellFormed(AfterCycle(d, fetch))
    ensures forall u :: WatchedCrns(AfterCycle(d, fetch), u) == WatchedCrns(d, u) - Retired(d, fetch)
    ensures WithinLimit(AfterCycle(d, fetch), limit)
  {
    var gone := Retired(d, fetch);
    var d' := AfterCycle(d, fetch);
    WithoutNoDuplicates(d.keys, gone);
    WithoutMembers(d.keys, gone);
    forall u ensures WatchCount(d', u) <= limit {
      assert WatchCount(d, u) <= limit;
      assert WatchedCrns(d', u) == WatchedCrns(d, u) - gone;
      SubsetCount(WatchedCrns(d', u), WatchedCrns(d, u));
    }
  }

  /** Removal is exact: a course leaves the dictionary if and only if its outcome is terminal; kept entries are unchanged. */
  lemma CycleRemovesExactly(d: Dict, fetch: seq<string> -> FetchOutcome, c: Crn)
    requires WellFormed(d)
    ensures c in AfterCycle(d, fetch).entries <==> c in d.entries && !Terminal(fetch(d.entries[c].identity))
    ensures c in AfterCycle(d, fetch).entries ==> AfterCycle(d, fetch).entries[c] == d.entries[c]
    ensures c in AfterCycle(d, fetch).keys <==> c in AfterCycle(d, fetch).entries
  {
    WithoutMembers(d.keys, Retired(d, fetch));
  }

  /** Every follower of a retired course gets that course's notification. */
  lemma {:induction false} CycleNotifiesRetired(keys: seq<Crn>, entries: map<Crn, Entry>,
                                                fetch: seq<string> -> FetchOutcome, c: Crn, u: UserId)
    requires c in keys && c in entries && Terminal(fetch(entries[c].identity))
    requires u in entries[c].notifyList
    ensures Send(u, Decide(fetch(entries[c].identity), entries[c], c).message) in CycleTrace(keys, entries, fetch)
  {
    var front, last := keys[..|keys| - 1], keys[|keys| - 1];
    if c in front {
      CycleNotifiesRetired(front, entries, fetch, c, u);
    } else {
      assert c == last by {
        assert keys == front + [last];
      }
      var decision := Decide(fetch(entries[c].identity), entries[c], c);
      var list := entries[c].notifyList;
      var i :| 0 <= i < |list| && list[i] == u;
      NotifyTraceAt(list, decision.message, decision.urgent, i, 0);
      assert CourseSends(entries, fetch, c) == NotifyTrace(list, decision.message, decision.urgent);
      assert Send(u, decision.message) in CourseSends(entries, fetch, c);
    }
  }

  /** Nothing else is sent: every send of a pass goes to a follower of a course the pass retires. */
  lemma {:induction false} CycleTraceSound(keys: seq<Crn>, entries: map<Crn, Entry>,
                                           fetch: seq<string> -> FetchOutcome, s: Send)
    requires s in CycleTrace(keys, entries, fetch)
    ensures exists c :: c in keys && c in entries && Terminal(fetch(entries[c].identity)) && s.user in entries[c].notifyList
  {
    var front, last := keys[..|keys| - 1], keys[|keys| - 1];
    if s in CycleTrace(front, entries, fetch) {
      CycleTraceSound(front, entries, fetch, s);
      var c :| c in front && c in entries && Terminal(fetch(entries[c].identity)) && s.user in entries[c].notifyList;
      assert c in keys;
    } else {
      assert s in CourseSends(entries, fetch, last);
      var decision := Decide(fetch(entries[last].identity), entries[last], last);
      NotifyTraceSends(entries[last].notifyList, decision.message, decision.urgent, s);
      assert last in keys;
    }
  }

  /**
   * The body of the `for` loop over the dictionary: fetch, decide, notify,
   * and collect the CRN. The store itself is not changed during the visit.
   */
  method PlanCycle(store: CourseStore, fetch: seq<string> -> FetchOutcome) returns (trace: seq<Send>, crnsToRemove: seq<Crn>)
    requires store.Valid()
    ensures crnsToRemove == Planned(store.keys, store.entries, fetch)
    ensures trace == CycleTrace(store.keys, store.entries, fetch)
  {
    var keys := store.keys;
    trace, crnsToRemove := [], [];
    var i := 0;
    while i < |keys|
      invariant 0 <= i <= |keys|
      invariant crnsToRemove == Planned(keys[..i], store.entries, fetch)
      invariant trace == CycleTrace(keys[..i], store.entries, fetch)
    {
      var crn := keys[i];
      var values := store.entries[crn];
      var outcome := fetch(values.identity);
      var sends, collect := [], [];
      match outcome {
        case NotFound =>
          collect := [crn];
          sends := NotifyUsers(values.notifyList, MissingMessage(values.courseTitle, crn), false);
        case OtherError =>
        case Fetched(enrollmentStatus, notes, text) =>
          var status := StatusText(enrollmentStatus);
          if Contains(status, "Open") {
            collect := [crn];
            var notification := OpenSuffix(status, notes, text);
            sends := NotifyUsers(values.notifyList, OpenMessage(values.courseTitle, crn, notification), true);
          }
      }
      assert collect == Collected(store.entries, fetch, crn);
      assert sends == CourseSends(store.entries, fetch, crn);
      crnsToRemove := crnsToRemove + collect;
      trace := trace + sends;
      assert keys[..i + 1][..i] == keys[..i];
      i := i + 1;
    }
    assert keys[..i] == keys;
  }

  /**
   * One pass of the loop: plan, then `del` every collected CRN. The result is
   * the dictionary AfterCycle describes and the sends CycleTrace describes.
   */
  method PollCycle(store: CourseStore, fetch: seq<string> -> FetchOutcome) returns (trace: seq<Send>)
    requires store.Valid()
    modifies store
    ensures store.Valid()
    ensures store.Dictionary() == AfterCycle(old(store.Dictionary()), fetch)
    ensures trace == CycleTrace(old(store.keys), old(store.entries), fetch)
  {
    ghost var d := store.Dictionary();
    var crnsToRemove;
    trace, crnsToRemove := PlanCycle(store, fetch);
    PlannedMembers(d.keys, d.entries, fetch);
    assert Elems(crnsToRemove[..0]) == {};
    WithoutAbsent(d.keys, {});
    assert d.entries - {} == d.entries;
    var i := 0;
    while i < |crnsToRemove|
      invariant 0 <= i <= |crnsToRemove|
      invariant store.Dictionary() == DeletedAll(d, Elems(crnsToRemove[..i]))
    {
      RemovalStep(d, crnsToRemove, i);
      store.RemoveCourse(crnsToRemove[i]);
      i := i + 1;
    }
    assert crnsToRemove[..i] == crnsToRemove;
    RemovalDone(d, fetch, store.limit);
  }
}
