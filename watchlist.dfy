/**
 * The `courses` dictionary of classmate.py as a value, and what
 * `_get_watching_courses`, `list_watching_courses` and `watch_course` do to it.
 * The class in registry.dfy holds the dictionary and is proved against these
 * definitions; the lemmas here are the properties the plug-in relies on.
 */
module WatchList {
  import opened Wrappers
  import opened Text
  import opened Request
  import opened Notifier

  type Crn = string

  /** One watched course: its followers, the title captured when it was first watched, the arguments to re-fetch it. */
  datatype Entry = Entry(notifyList: seq<UserId>, courseTitle: string, identity: seq<string>)

  /**
   * The dictionary from CRN to entry. Python dictionaries iterate in insertion
   * order, so the keys are kept in that order beside the map.
   */
  datatype Dict = Dict(keys: seq<Crn>, entries: map<Crn, Entry>)

  predicate NoDuplicates<T(==)>(s: seq<T>) {
    forall i, j :: 0 <= i < j < |s| ==> s[i] != s[j]
  }

  /** The dictionary's invariant: one key per entry, and every follower list non-empty and free of repeats. */
  ghost predicate WellFormed(d: Dict) {
    && NoDuplicates(d.keys)
    && (forall c :: c in d.keys <==> c in d.entries)
    && (forall c :: c in d.entries ==> d.entries[c].notifyList != [] && NoDuplicates(d.entries[c].notifyList))
  }

  function Empty(): (d: Dict)
    ensures WellFormed(d)
  {
    Dict([], map[])
  }

  /** The courses a user follows. */
  function WatchedCrns(d: Dict, user: UserId): set<Crn> {
    set c | c in d.entries && user in d.entries[c].notifyList
  }

  /** How many courses a user follows: what the capacity limit is compared with. */
  function WatchCount(d: Dict, user: UserId): nat {
    |WatchedCrns(d, user)|
  }

  /** The user-visible label of a course. */
  function Label(title: string, crn: Crn): string {
    title + " (" + crn + ")"
  }

  /** `_get_watching_courses`: the label of each course the user follows, in dictionary order. */
  function Listing(keys: seq<Crn>, entries: map<Crn, Entry>, user: UserId): seq<string> {
    if keys == [] then []
    else
      var c := keys[|keys| - 1];
      Listing(keys[..|keys| - 1], entries, user)
        + (if c in entries && user in entries[c].notifyList then [Label(entries[c].courseTitle, c)] else [])
  }

  /** The courses among `keys` that the user follows. */
  function WatchedAmong(keys: seq<Crn>, entries: map<Crn, Entry>, user: UserId): set<Crn> {
    set c | c in keys && c in entries && user in entries[c].notifyList
  }

  lemma {:induction false} ListingCountAmong(keys: seq<Crn>, entries: map<Crn, Entry>, user: UserId)
    requires NoDuplicates(keys)
    ensures |Listing(keys, entries, user)| == |WatchedAmong(keys, entries, user)|
  {
    if keys != [] {
      var front, c := keys[..|keys| - 1], keys[|keys| - 1];
      assert NoDuplicates(front);
      ListingCountAmong(front, entries, user);
      assert c !in front;
      if c in entries && user in entries[c].notifyList {
        assert WatchedAmong(keys, entries, user) == WatchedAmong(front, entries, user) + {c};
      } else {
        assert WatchedAmong(keys, entries, user) == WatchedAmong(front, entries, user);
      }
    }
  }

  /** The listing has one line per followed course: its length is the count the limit is checked against. */
  lemma ListingCount(d: Dict, user: UserId)
    requires WellFormed(d)
    ensures |Listing(d.keys, d.entries, user)| == WatchCount(d, user)
  {
    ListingCountAmong(d.keys, d.entries, user);
    assert WatchedAmong(d.keys, d.entries, user) == WatchedCrns(d, user);
  }

  const WatchingHeader := "You are watching:\n"
  const NotWatchingMessage := "You are not watching any courses right now."

  /** `list_watching_courses`: the header and one line per course, or the "not watching" text. */
  function ListMessage(watching: seq<string>): string {
    if watching != [] then WatchingHeader + Join(watching, "\n") else NotWatchingMessage
  }

  /** The "not watching" text is shown exactly when the user follows no course. */
  lemma ListMessageNotWatching(d: Dict, user: UserId)
    requires WellFormed(d)
    ensures ListMessage(Listing(d.keys, d.entries, user)) == NotWatchingMessage <==> WatchCount(d, user) == 0
  {
    ListingCount(d, user);
    var watching := Listing(d.keys, d.entries, user);
    if watching != [] {
      assert ListMessage(watching)[8] == WatchingHeader[8] == 'w';
      assert NotWatchingMessage[8] == 'n';
    }
  }

  /** The keys other than those in `gone`, in their order. */
  function Without(keys: seq<Crn>, gone: set<Crn>): seq<Crn> {
    if keys == [] then []
    else Without(keys[..|keys| - 1], gone) + (if keys[|keys| - 1] in gone then [] else [keys[|keys| - 1]])
  }

  /** Exactly the keys outside `gone` remain. */
  lemma {:induction false} WithoutMembers(keys: seq<Crn>, gone: set<Crn>)
    ensures forall c :: c in Without(keys, gone) <==> c in keys && c !in gone
  {
    if keys != [] {
      WithoutMembers(keys[..|keys| - 1], gone);
      assert keys == keys[..|keys| - 1] + [keys[|keys| - 1]];
    }
  }

  lemma {:induction false} WithoutNoDuplicates(keys: seq<Crn>, gone: set<Crn>)
    requires NoDuplicates(keys)
    ensures NoDuplicates(Without(keys, gone))
  {
    if keys != [] {
      var front := keys[..|keys| - 1];
      assert NoDuplicates(front);
      WithoutNoDuplicates(front, gone);
      WithoutMembers(front, gone);
    }
  }

  lemma {:induction false} WithoutTwice(keys: seq<Crn>, gone: set<Crn>, more: set<Crn>)
    ensures Without(Without(keys, gone), more) == Without(keys, gone + more)
  {
    if keys != [] {
      var front, c := keys[..|keys| - 1], keys[|keys| - 1];
      WithoutTwice(front, gone, more);
      var w := Without(front, gone);
      if c in gone {
        assert Without(keys, gone) == w;
        assert Without(keys, gone + more) == Without(front, gone + more);
      } else {
        assert Without(keys, gone) == w + [c];
        assert (w + [c])[..|w|] == w;
        assert Without(w + [c], more) == Without(w, more) + (if c in more then [] else [c]);
      }
    }
  }

  lemma {:induction false} WithoutAbsent(keys: seq<Crn>, gone: set<Crn>)
    requires forall c :: c in gone ==> c !in keys
    ensures Without(keys, gone) == keys
  {
    if keys != [] {
      WithoutAbsent(keys[..|keys| - 1], gone);
    }
  }

  /** `del course_dictionary[crn]`: the entry goes, the other keys keep their order. */
  function Delete(d: Dict, crn: Crn): Dict {
    Dict(Without(d.keys, {crn}), d.entries - {crn})
  }

  lemma DeleteKeepsWellFormed(d: Dict, crn: Crn)
    requires WellFormed(d)
    ensures WellFormed(Delete(d, crn))
    ensures forall u :: WatchedCrns(Delete(d, crn), u) == WatchedCrns(d, u) - {crn}
  {
    WithoutNoDuplicates(d.keys, {crn});
    WithoutMembers(d.keys, {crn});
  }

  /** Deleting a course never raises anybody's count, so the limit still holds. */
  lemma DeleteKeepsLimit(d: Dict, crn: Crn, limit: nat)
    requires WellFormed(d) && WithinLimit(d, limit)
    ensures WithinLimit(Delete(d, crn), limit)
  {
    DeleteKeepsWellFormed(d, crn);
    forall u ensures WatchCount(Delete(d, crn), u) <= limit {
      assert WatchCount(d, u) <= limit;
      SubsetCount(WatchedCrns(Delete(d, crn), u), WatchedCrns(d, u));
    }
  }

  /** Python's `list.remove(x)`: drops the first occurrence of `x`. */
  function RemoveFirst(s: seq<UserId>, x: UserId): (r: seq<UserId>)
    requires x in s
    ensures |r| == |s| - 1
    ensures multiset(r) == multiset(s) - multiset{x}
  {
    assert s == [s[0]] + s[1..];
    if s[0] == x then s[1..] else [s[0]] + RemoveFirst(s[1..], x)
  }

  /** On a list without repeats, removal takes `x` out and keeps every other follower. */
  lemma RemoveFirstNoDuplicates(s: seq<UserId>, x: UserId)
    requires x in s && NoDuplicates(s)
    ensures NoDuplicates(RemoveFirst(s, x))
    ensures forall u :: u in RemoveFirst(s, x) <==> u in s && u != x
  {
    RemoveFirstMembers(s, x);
    RemoveFirstDistinct(s, x);
  }

  lemma RemoveFirstMembers(s: seq<UserId>, x: UserId)
    requires x in s && NoDuplicates(s)
    ensures forall u :: u in RemoveFirst(s, x) <==> u in s && u != x
  {
    var r := RemoveFirst(s, x);
    forall u ensures u in r <==> u in s && u != x {
      assert u in r <==> u in multiset(r);
      assert u in s <==> u in multiset(s);
      if u == x {
        NoDuplicatesCount(s, x);
      }
    }
  }

  lemma RemoveFirstDistinct(s: seq<UserId>, x: UserId)
    requires x in s && NoDuplicates(s)
    ensures NoDuplicates(RemoveFirst(s, x))
  {
    var r := RemoveFirst(s, x);
    forall i, j | 0 <= i < j < |r| ensures r[i] != r[j] {
      if r[i] == r[j] {
        TwoCopies(r, i, j);
        NoDuplicatesCount(s, r[i]);
        assert false;
      }
    }
  }

  lemma {:induction false} NoDuplicatesCount(s: seq<UserId>, x: UserId)
    requires NoDuplicates(s)
    ensures multiset(s)[x] <= 1
  {
    if s != [] {
      assert s == [s[0]] + s[1..];
      assert NoDuplicates(s[1..]);
      NoDuplicatesCount(s[1..], x);
      if s[0] == x {
        assert x !in s[1..];
      }
    }
  }

  lemma TwoCopies(s: seq<UserId>, i: nat, j: nat)
    requires i < j < |s| && s[i] == s[j]
    ensures multiset(s)[s[i]] >= 2
  {
    assert s == s[..i] + [s[i]] + s[i + 1..j] + [s[j]] + s[j + 1..];
  }

  /** Appending the last element back and removing it again restores the list. */
  lemma {:induction false} RemoveFirstAppended(s: seq<UserId>, x: UserId)
    requires x !in s
    ensures RemoveFirst(s + [x], x) == s
  {
    if s != [] {
      assert (s + [x])[1..] == s[1..] + [x];
      RemoveFirstAppended(s[1..], x);
    }
  }

  const RemovedMessage := "Removed course from the watch list."
  const OpenError := "CRN is currently open."
  const LimitError := "You are watching too many courses."

  function AddedMessage(title: string): string {
    "Course '" + title + "' added to the watch list."
  }

  /**
   * `watch_course`, given what `_get_data` returned for `args` and the
   * configured `course_limit`: the reply or error, and the dictionary afterwards.
   */
  function WatchStep(d: Dict, user: UserId, args: seq<string>,
                     fetched: Result<Section, BotError>, limit: nat): (step: (Result<string, BotError>, Dict))
    ensures step.0.Failure? ==> step.1 == d
    ensures step.0.Success? ==> Closed(fetched)
    ensures fetched.Success? ==> forall c :: c != fetched.value.id ==>
      (c in step.1.entries <==> c in d.entries) && (c in d.entries ==> step.1.entries[c] == d.entries[c])
  {
    match fetched
    case Failure(e) => (Failure(e), d)
    case Success(section) =>
      if section.status.None? then (Failure(AttributeError), d)
      else if Contains(section.status.value, "Open") then (Failure(BotException(OpenError, [])), d)
      else
        var crn := section.id;
        if crn in d.entries then
          var entry := d.entries[crn];
          if user in entry.notifyList then
            var rest := RemoveFirst(entry.notifyList, user);
            if rest == [] then (Success(RemovedMessage), Delete(d, crn))
            else (Success(RemovedMessage), Dict(d.keys, d.entries[crn := entry.(notifyList := rest)]))
          else if WatchCount(d, user) >= limit then (Failure(BotException(LimitError, [])), d)
          else
            (Success(AddedMessage(section.title)),
             Dict(d.keys, d.entries[crn := entry.(notifyList := entry.notifyList + [user])]))
        else if WatchCount(d, user) >= limit then (Failure(BotException(LimitError, [])), d)
        else
          (Success(AddedMessage(section.title)),
           Dict(d.keys + [crn], d.entries[crn := Entry([user], section.title, args)]))
  }

  /** A fetched section that `watch_course` would accept: its status is present and does not say "Open". */
  predicate Closed(fetched: Result<Section, BotError>) {
    fetched.Success? && fetched.value.status.Some? && !Contains(fetched.value.status.value, "Open")
  }

  /** Errors before the dictionary is touched: a failed fetch, a missing status, an open section. */
  lemma WatchRejectsUnlessClosed(d: Dict, user: UserId, args: seq<string>, fetched: Result<Section, BotError>, limit: nat)
    requires !Closed(fetched)
    ensures WatchStep(d, user, args, fetched, limit).1 == d
    ensures fetched.Success? && fetched.value.status.Some? ==>
      WatchStep(d, user, args, fetched, limit).0 == Failure(BotException(OpenError, []))
    ensures fetched.Success? && fetched.value.status.None? ==>
      WatchStep(d, user, args, fetched, limit).0 == Failure(AttributeError)
    ensures fetched.Failure? ==> WatchStep(d, user, args, fetched, limit).0 == Failure(fetched.error)
  {
  }

  /** The dictionary after an add that passes the checks. */
  function Added(d: Dict, user: UserId, args: seq<string>, section: Section): Dict {
    var crn := section.id;
    if crn in d.entries then
      Dict(d.keys, d.entries[crn := d.entries[crn].(notifyList := d.entries[crn].notifyList + [user])])
    else Dict(d.keys + [crn], d.entries[crn := Entry([user], section.title, args)])
  }

  /** The dictionary after the user leaves the course `crn`. */
  function Left(d: Dict, user: UserId, crn: Crn): Dict
    requires crn in d.entries && user in d.entries[crn].notifyList
  {
    var rest := RemoveFirst(d.entries[crn].notifyList, user);
    if rest == [] then Delete(d, crn) else Dict(d.keys, d.entries[crn := d.entries[crn].(notifyList := rest)])
  }

  lemma AddShape(d: Dict, user: UserId, args: seq<string>, fetched: Result<Section, BotError>, limit: nat)
    requires Closed(fetched)
    requires fetched.value.id !in WatchedCrns(d, user)
    requires WatchCount(d, user) < limit
    ensures WatchStep(d, user, args, fetched, limit) == (Success(AddedMessage(fetched.value.title)), Added(d, user, args, fetched.value))
  {
  }

  lemma LeaveShape(d: Dict, user: UserId, args: seq<string>, fetched: Result<Section, BotError>, limit: nat)
    requires Closed(fetched)
    requires fetched.value.id in WatchedCrns(d, user)
    ensures WatchStep(d, user, args, fetched, limit) == (Success(RemovedMessage), Left(d, user, fetched.value.id))
  {
  }

  lemma AddedWatched(d: Dict, user: UserId, args: seq<string>, section: Section)
    requires section.id !in WatchedCrns(d, user)
    ensures WatchedCrns(Added(d, user, args, section), user) == WatchedCrns(d, user) + {section.id}
    ensures forall u :: u != user ==> WatchedCrns(Added(d, user, args, section), u) == WatchedCrns(d, u)
  {
  }

  /** Replacing one follower list changes membership of that one course only. */
  lemma ReplaceListWatched(d: Dict, crn: Crn, list: seq<UserId>, u: UserId)
    requires crn in d.entries
    ensures WatchedCrns(Dict(d.keys, d.entries[crn := d.entries[crn].(notifyList := list)]), u)
            == (WatchedCrns(d, u) - {crn}) + (if u in list then {crn} else {})
  {
  }

  lemma LeftDeletes(d: Dict, user: UserId, crn: Crn)
    requires WellFormed(d)
    requires crn in d.entries && d.entries[crn].notifyList == [user]
    ensures Left(d, user, crn) == Delete(d, crn)
    ensures WellFormed(Left(d, user, crn))
    ensures forall u :: WatchedCrns(Left(d, user, crn), u) == WatchedCrns(d, u) - {crn}
    ensures forall u :: u != user ==> crn !in WatchedCrns(d, u)
  {
    assert RemoveFirst([user], user) == [];
    DeleteKeepsWellFormed(d, crn);
  }

  /** Replacing a follower list by another non-empty list without repeats keeps the dictionary well formed. */
  lemma ReplaceListWellFormed(d: Dict, crn: Crn, list: seq<UserId>)
    requires WellFormed(d) && crn in d.entries
    requires list != [] && NoDuplicates(list)
    ensures WellFormed(Dict(d.keys, d.entries[crn := d.entries[crn].(notifyList := list)]))
  {
  }

  lemma LeftKeeps(d: Dict, user: UserId, crn: Crn)
    requires WellFormed(d)
    requires crn in d.entries && user in d.entries[crn].notifyList && d.entries[crn].notifyList != [user]
    ensures crn in Left(d, user, crn).entries
    ensures WellFormed(Left(d, user, crn))
    ensures WatchedCrns(Left(d, user, crn), user) == WatchedCrns(d, user) - {crn}
    ensures forall u :: u != user ==> WatchedCrns(Left(d, user, crn), u) == WatchedCrns(d, u)
  {
    var list := d.entries[crn].notifyList;
    RemoveFirstNoDuplicates(list, user);
    var rest := RemoveFirst(list, user);
    ReplaceListWellFormed(d, crn, rest);
    var d' := Dict(d.keys, d.entries[crn := d.entries[crn].(notifyList := rest)]);
    assert Left(d, user, crn) == d';
    forall u ensures WatchedCrns(d', u) == (WatchedCrns(d, u) - {crn}) + (if u in rest then {crn} else {}) {
      ReplaceListWatched(d, crn, rest, u);
    }
  }

  lemma LeftWatched(d: Dict, user: UserId, crn: Crn)
    requires WellFormed(d)
    requires crn in d.entries && user in d.entries[crn].notifyList
    ensures WellFormed(Left(d, user, crn))
    ensures WatchedCrns(Left(d, user, crn), user) == WatchedCrns(d, user) - {crn}
    ensures forall u :: u != user ==> WatchedCrns(Left(d, user, crn), u) == WatchedCrns(d, u)
    ensures crn in Left(d, user, crn).entries <==> d.entries[crn].notifyList != [user]
  {
    if d.entries[crn].notifyList == [user] {
      LeftDeletes(d, user, crn);
    } else {
      LeftKeeps(d, user, crn);
    }
  }

  /** Adding: a closed course the user does not follow, while under the limit, gets the user appended (or a new entry). */
  lemma WatchAdds(d: Dict, user: UserId, args: seq<string>, fetched: Result<Section, BotError>, limit: nat)
    requires Closed(fetched)
    requires fetched.value.id !in WatchedCrns(d, user)
    requires WatchCount(d, user) < limit
    ensures var (r, d') := WatchStep(d, user, args, fetched, limit);
      var crn := fetched.value.id;
      && r == Success(AddedMessage(fetched.value.title))
      && crn in d'.entries
      && (crn in d.entries ==> d'.entries[crn] == d.entries[crn].(notifyList := d.entries[crn].notifyList + [user]))
      && (crn !in d.entries ==> d'.entries[crn] == Entry([user], fetched.value.title, args))
      && (forall c :: c != crn ==> (c in d'.entries <==> c in d.entries))
      && (forall c :: c != crn && c in d.entries ==> d'.entries[c] == d.entries[c])
      && WatchedCrns(d', user) == WatchedCrns(d, user) + {crn}
      && WatchCount(d', user) == WatchCount(d, user) + 1 <= limit
  {
    AddShape(d, user, args, fetched, limit);
    AddedWatched(d, user, args, fetched.value);
  }

  /** Toggle: a follower who watches again is removed, whatever the limit; an emptied entry is deleted. */
  lemma WatchTogglesOff(d: Dict, user: UserId, args: seq<string>, fetched: Result<Section, BotError>, limit: nat)
    requires WellFormed(d) && Closed(fetched)
    requires fetched.value.id in WatchedCrns(d, user)
    ensures var (r, d') := WatchStep(d, user, args, fetched, limit);
      var crn := fetched.value.id;
      && r == Success(RemovedMessage)
      && crn !in WatchedCrns(d', user)
      && (crn in d'.entries <==> d.entries[crn].notifyList != [user])
      && (crn in d'.entries ==>
            d'.entries[crn].courseTitle == d.entries[crn].courseTitle && d'.entries[crn].identity == d.entries[crn].identity)
      && (forall c :: c != crn ==> (c in d'.entries <==> c in d.entries))
      && (forall c :: c != crn && c in d.entries ==> d'.entries[c] == d.entries[c])
      && WatchedCrns(d', user) == WatchedCrns(d, user) - {crn}
  {
    LeaveShape(d, user, args, fetched, limit);
    LeftWatched(d, user, fetched.value.id);
  }

  /** Capacity: at the limit, adding fails with the "too many" error and leaves the dictionary alone. */
  lemma WatchAtLimit(d: Dict, user: UserId, args: seq<string>, fetched: Result<Section, BotError>, limit: nat)
    requires Closed(fetched)
    requires fetched.value.id !in WatchedCrns(d, user)
    requires WatchCount(d, user) >= limit
    ensures WatchStep(d, user, args, fetched, limit) == (Failure(BotException(LimitError, [])), d)
  {
  }

  /** `watch_course` keeps the dictionary well formed. */
  lemma WatchKeepsWellFormed(d: Dict, user: UserId, args: seq<string>, fetched: Result<Section, BotError>, limit: nat)
    requires WellFormed(d)
    ensures WellFormed(WatchStep(d, user, args, fetched, limit).1)
  {
    if Closed(fetched) {
      var crn := fetched.value.id;
      if crn in WatchedCrns(d, user) {
        LeaveShape(d, user, args, fetched, limit);
        LeftWatched(d, user, crn);
      } else if WatchCount(d, user) < limit {
        AddShape(d, user, args, fetched, limit);
        var d' := Added(d, user, args, fetched.value);
        if crn in d.entries {
          var list := d.entries[crn].notifyList;
          assert d'.entries[crn].notifyList == list + [user];
          assert NoDuplicates(list + [user]);
        } else {
          assert NoDuplicates(d.keys + [crn]);
        }
      }
    }
  }

  /** Every user follows at most `limit` courses. */
  ghost predicate WithinLimit(d: Dict, limit: nat) {
    forall u :: WatchCount(d, u) <= limit
  }

  lemma SubsetCount(a: set<Crn>, b: set<Crn>)
    requires a <= b
    ensures |a| <= |b|
  {
    assert b == a + (b - a);
  }

  lemma CountsAfterLeave(d: Dict, user: UserId, crn: Crn, limit: nat)
    requires WellFormed(d) && WithinLimit(d, limit)
    requires crn in d.entries && user in d.entries[crn].notifyList
    ensures WithinLimit(Left(d, user, crn), limit)
  {
    LeftWatched(d, user, crn);
    var d' := Left(d, user, crn);
    forall u ensures WatchCount(d', u) <= limit {
      assert WatchCount(d, u) <= limit;
      SubsetCount(WatchedCrns(d', u), WatchedCrns(d, u));
    }
  }

  lemma CountsAfterAdd(d: Dict, user: UserId, args: seq<string>, section: Section, limit: nat)
    requires WithinLimit(d, limit)
    requires section.id !in WatchedCrns(d, user) && WatchCount(d, user) < limit
    ensures WithinLimit(Added(d, user, args, section), limit)
  {
    AddedWatched(d, user, args, section);
    var d' := Added(d, user, args, section);
    forall u ensures WatchCount(d', u) <= limit {
      assert WatchCount(d, u) <= limit;
    }
  }

  /** Only the caller's count changes, and never past the limit. */
  lemma WatchKeepsLimit(d: Dict, user: UserId, args: seq<string>, fetched: Result<Section, BotError>, limit: nat)
    requires WellFormed(d) && WithinLimit(d, limit)
    ensures var d' := WatchStep(d, user, args, fetched, limit).1;
      && WithinLimit(d', limit)
      && (forall u :: u != user ==> WatchedCrns(d', u) == WatchedCrns(d, u))
  {
    if Closed(fetched) {
      var crn := fetched.value.id;
      if crn in WatchedCrns(d, user) {
        LeaveShape(d, user, args, fetched, limit);
        LeftWatched(d, user, crn);
        CountsAfterLeave(d, user, crn, limit);
      } else if WatchCount(d, user) < limit {
        AddShape(d, user, args, fetched, limit);
        AddedWatched(d, user, args, fetched.value);
        CountsAfterAdd(d, user, args, fetched.value, limit);
      }
    }
  }

  lemma TwiceExisting(d: Dict, user: UserId, args: seq<string>, section: Section)
    requires WellFormed(d)
    requires section.id in d.entries && user !in d.entries[section.id].notifyList
    ensures var d1 := Added(d, user, args, section);
      section.id in d1.entries && user in d1.entries[section.id].notifyList && Left(d1, user, section.id) == d
  {
    var crn := section.id;
    var entry := d.entries[crn];
    var d1 := Added(d, user, args, section);
    RemoveFirstAppended(entry.notifyList, user);
    assert d1.entries[crn].notifyList == entry.notifyList + [user];
    assert Left(d1, user, crn) == Dict(d.keys, d1.entries[crn := entry]);
    assert d1.entries[crn := entry] == d.entries;
  }

  lemma TwiceNew(d: Dict, user: UserId, args: seq<string>, section: Section)
    requires WellFormed(d)
    requires section.id !in d.entries
    ensures var d1 := Added(d, user, args, section);
      section.id in d1.entries && user in d1.entries[section.id].notifyList && Left(d1, user, section.id) == d
  {
    var crn := section.id;
    var d1 := Added(d, user, args, section);
    assert d1 == Dict(d.keys + [crn], d.entries[crn := Entry([user], section.title, args)]);
    assert RemoveFirst([user], user) == [];
    assert Left(d1, user, crn) == Delete(d1, crn);
    WithoutAbsent(d.keys, {crn});
    assert Without(d.keys + [crn], {crn}) == Without(d.keys, {crn}) by {
      assert (d.keys + [crn])[..|d.keys|] == d.keys;
    }
    assert d1.entries - {crn} == d.entries;
  }

  /** Watching the same closed course twice, starting unwatched, gives back the very same dictionary. */
  lemma WatchTwiceRestores(d: Dict, user: UserId, args: seq<string>, fetched: Result<Section, BotError>, limit: nat)
    requires WellFormed(d) && Closed(fetched)
    requires fetched.value.id !in WatchedCrns(d, user)
    ensures var d1 := WatchStep(d, user, args, fetched, limit).1;
      var d2 := WatchStep(d1, user, args, fetched, limit).1;
      d2 == d && fetched.value.id !in WatchedCrns(d2, user)
  {
    var crn := fetched.value.id;
    if WatchCount(d, user) < limit {
      AddShape(d, user, args, fetched, limit);
      var d1 := Added(d, user, args, fetched.value);
      if crn in d.entries {
        TwiceExisting(d, user, args, fetched.value);
      } else {
        TwiceNew(d, user, args, fetched.value);
      }
      LeaveShape(d1, user, args, fetched, limit);
    } else {
      WatchAtLimit(d, user, args, fetched, limit);
    }
  }

  /** One successful add in the scenario below: the reply, and the course joins the user's set. */
  lemma ScenarioAdd(d: Dict, user: UserId, args: seq<string>, s: Section, limit: nat)
    requires WellFormed(d) && Closed(Success(s))
    requires s.id !in WatchedCrns(d, user) && WatchCount(d, user) < limit
    ensures WatchStep(d, user, args, Success(s), limit).0 == Success(AddedMessage(s.title))
    ensures WellFormed(WatchStep(d, user, args, Success(s), limit).1)
    ensures WatchedCrns(WatchStep(d, user, args, Success(s), limit).1, user) == WatchedCrns(d, user) + {s.id}
  {
    WatchAdds(d, user, args, Success(s), limit);
    WatchKeepsWellFormed(d, user, args, Success(s), limit);
  }

  /** With a limit of three, three different closed courses are added one after the other. */
  lemma ScenarioFill(user: UserId, args: seq<string>, a: Section, b: Section, c: Section)
    requires Closed(Success(a)) && Closed(Success(b)) && Closed(Success(c))
    requires a.id != b.id && a.id != c.id && b.id != c.id
    ensures
      var (r1, d1) := WatchStep(Empty(), user, args, Success(a), 3);
      var (r2, d2) := WatchStep(d1, user, args, Success(b), 3);
      var (r3, d3) := WatchStep(d2, user, args, Success(c), 3);
      && r1 == Success(AddedMessage(a.title))
      && r2 == Success(AddedMessage(b.title))
      && r3 == Success(AddedMessage(c.title))
      && WellFormed(d3) && WatchedCrns(d3, user) == {a.id, b.id, c.id}
  {
    var d0 := Empty();
    assert WatchedCrns(d0, user) == {};
    ScenarioAdd(d0, user, args, a, 3);
    var d1 := WatchStep(d0, user, args, Success(a), 3).1;
    assert WatchCount(d1, user) == 1;
    ScenarioAdd(d1, user, args, b, 3);
    var d2 := WatchStep(d1, user, args, Success(b), 3).1;
    assert WatchCount(d2, user) == 2;
    ScenarioAdd(d2, user, args, c, 3);
  }

  /**
   * Continuing with the user at the limit of three: a fourth course is
   * refused and changes nothing; leaving one frees a place; the fourth is then added.
   */
  lemma ScenarioSwap(d: Dict, user: UserId, args: seq<string>, a: Section, b: Section, c: Section, e: Section)
    requires WellFormed(d) && WatchedCrns(d, user) == {a.id, b.id, c.id}
    requires Closed(Success(a)) && Closed(Success(e))
    requires a.id != b.id && a.id != c.id && a.id != e.id && b.id != c.id && b.id != e.id && c.id != e.id
    ensures
      var (r4, d4) := WatchStep(d, user, args, Success(e), 3);
      var (r5, d5) := WatchStep(d4, user, args, Success(a), 3);
      var (r6, d6) := WatchStep(d5, user, args, Success(e), 3);
      && r4 == Failure(BotException(LimitError, [])) && d4 == d
      && r5 == Success(RemovedMessage)
      && r6 == Success(AddedMessage(e.title))
      && WatchedCrns(d6, user) == {b.id, c.id, e.id}
  {
    assert WatchCount(d, user) == 3;
    WatchAtLimit(d, user, args, Success(e), 3);
    ScenarioLeave(d, user, args, a, 3);
    var d5 := WatchStep(d, user, args, Success(a), 3).1;
    assert WatchedCrns(d5, user) == {b.id, c.id};
    assert WatchCount(d5, user) == 2;
    ScenarioAdd(d5, user, args, e, 3);
  }

  /** One toggle-off in the scenario above: the reply, and the course leaves the user's set. */
  lemma ScenarioLeave(d: Dict, user: UserId, args: seq<string>, s: Section, limit: nat)
    requires WellFormed(d) && Closed(Success(s))
    requires s.id in WatchedCrns(d, user)
    ensures WatchStep(d, user, args, Success(s), limit).0 == Success(RemovedMessage)
    ensures WellFormed(WatchStep(d, user, args, Success(s), limit).1)
    ensures WatchedCrns(WatchStep(d, user, args, Success(s), limit).1, user) == WatchedCrns(d, user) - {s.id}
  {
    WatchTogglesOff(d, user, args, Success(s), limit);
    WatchKeepsWellFormed(d, user, args, Success(s), limit);
  }
}
