/**
 * The plug-in's persistent `courses` dictionary as an object whose methods
 * change it in place, as `watch_course` and the polling loop of classmate.py
 * do. Each method is proved against the value-level definitions of watchlist.dfy.
 */
module Registry {
  import opened Wrappers
  import opened Text
  import opened Request
  import opened Notifier
  import opened WatchList

  class CourseStore {
    /** The dictionary's keys in insertion order. */
    var keys: seq<Crn>
    /** The dictionary's entries. */
    var entries: map<Crn, Entry>
    /** The configured `course_limit`. */
    const limit: nat

    function Dictionary(): Dict
      reads this
    {
      Dict(keys, entries)
    }

    /** The dictionary is well formed and nobody follows more than `limit` courses. */
    ghost predicate Valid()
      reads this
    {
      WellFormed(Dictionary()) && WithinLimit(Dictionary(), limit)
    }

    constructor (limit: nat)
      ensures Valid()
      ensures Dictionary() == Empty() && this.limit == limit
    {
      keys, entries := [], map[];
      this.limit := limit;
    }

    /** `_get_watching_courses`: the label of every course the user follows, in dictionary order. */
    method WatchingCourses(user: UserId) returns (watching: seq<string>)
      requires Valid()
      ensures watching == Listing(keys, entries, user)
      ensures |watching| == WatchCount(Dictionary(), user)
    {
      watching := [];
      var i := 0;
      while i < |keys|
        invariant 0 <= i <= |keys|
        invariant watching == Listing(keys[..i], entries, user)
      {
        var crn := keys[i];
        var values := entries[crn];
        if user in values.notifyList {
          watching := watching + [Label(values.courseTitle, crn)];
        }
        assert keys[..i + 1][..i] == keys[..i];
        i := i + 1;
      }
      assert keys[..i] == keys;
      ListingCount(Dictionary(), user);
    }

    /** `list_watching_courses`: the "not watching" text exactly when the user follows nothing. */
    method ListWatchingCourses(user: UserId) returns (message: string)
      requires Valid()
      ensures message == ListMessage(Listing(keys, entries, user))
      ensures message == NotWatchingMessage <==> WatchCount(Dictionary(), user) == 0
    {
      var watching := WatchingCourses(user);
      if watching != [] {
        message := WatchingHeader + Join(watching, "\n");
      } else {
        message := NotWatchingMessage;
      }
      ListMessageNotWatching(Dictionary(), user);
    }

    /** `del course_dictionary[crn]`. */
    method RemoveCourse(crn: Crn)
      requires crn in entries
      modifies this
      ensures Dictionary() == Delete(old(Dictionary()), crn)
      ensures old(Valid()) ==> Valid()
    {
      ghost var d := Dictionary();
      if Valid() {
        DeleteKeepsWellFormed(d, crn);
        DeleteKeepsLimit(d, crn, limit);
      }
      keys := Without(keys, {crn});
      entries := entries - {crn};
    }

    /**
     * `watch_course` once `_get_data` has answered `fetched` for `args`: the
     * reply (or error) and the new dictionary are those of WatchStep, so the
     * lemmas of watchlist.dfy (toggle, capacity, open rejection) hold of it.
     */
    method Watch(user: UserId, args: seq<string>, fetched: Result<Section, BotError>) returns (r: Result<string, BotError>)
      requires Valid()
      modifies this
      ensures Valid()
      ensures (r, Dictionary()) == WatchStep(old(Dictionary()), user, args, fetched, limit)
    {
      ghost var d := Dictionary();
      WatchKeepsWellFormed(d, user, args, fetched, limit);
      WatchKeepsLimit(d, user, args, fetched, limit);
      if fetched.Failure? {
        return Failure(fetched.error);
      }
      var section := fetched.value;
      if section.status.None? {
        return Failure(AttributeError);
      }
      if Contains(section.status.value, "Open") {
        return Failure(BotException(OpenError, []));
      }
      var crn := section.id;
      if crn in entries {
        if user in entries[crn].notifyList {
          assert crn in WatchedCrns(d, user);
          LeaveShape(d, user, args, fetched, limit);
          entries := entries[crn := entries[crn].(notifyList := RemoveFirst(entries[crn].notifyList, user))];
          if entries[crn].notifyList == [] {
            RemoveCourse(crn);
            assert Dictionary() == Delete(d, crn);
          }
          return Success(RemovedMessage);
        } else {
          var watching := WatchingCourses(user);
          if |watching| >= limit {
            return Failure(BotException(LimitError, []));
          }
          AddShape(d, user, args, fetched, limit);
          entries := entries[crn := entries[crn].(notifyList := entries[crn].notifyList + [user])];
        }
      } else {
        var watching := WatchingCourses(user);
        if |watching| >= limit {
          return Failure(BotException(LimitError, []));
        }
        AddShape(d, user, args, fetched, limit);
        entries := entries[crn := Entry([user], section.title, args)];
        keys := keys + [crn];
      }
      r := Success(AddedMessage(section.title));
    }
  }
}
