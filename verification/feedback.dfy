/**
 * The feedback inbox (src/pages/AdminFeedbackPage.jsx): the fetched list is cut down
 * to unread entries and ordered newest first; reading one entry removes it, "mark all"
 * empties the list, and opening an entry removes it and selects it.
 */
module AdminFeedbackPage {
  import opened Optional
  import opened Seqs

  /** One feedback entry; `createdAt` is a timestamp (date parsing is not modelled). */
  datatype Feedback = Feedback(id: string, studentName: string, feedbackText: string, isRead: bool, createdAt: int)

  /** Newest first: no entry is older than an entry after it. */
  predicate NewestFirst(s: seq<Feedback>) {
    forall i, j :: 0 <= i < j < |s| ==> s[i].createdAt >= s[j].createdAt
  }

  /**
   * Insert `x` into a newest-first list after every entry that is not older than it:
   * the comparator `b.createdAt - a.createdAt` with a stable sort.
   */
  function InsertNewestFirst(x: Feedback, s: seq<Feedback>): (r: seq<Feedback>)
    requires NewestFirst(s)
    ensures NewestFirst(r)
    ensures multiset(r) == multiset(s) + multiset{x}
  {
    if s == [] then [x]
    else if x.createdAt > s[0].createdAt then [x] + s
    else
      var rest := InsertNewestFirst(x, s[1..]);
      assert s == [s[0]] + s[1..];
      HeadStaysFirst(x, s, rest);
      [s[0]] + rest
  }

  /**
   * The head of a newest-first list stays in front when an entry no newer than it is
   * inserted into its tail.
   */
  lemma HeadStaysFirst(x: Feedback, s: seq<Feedback>, rest: seq<Feedback>)
    requires NewestFirst(s) && s != [] && x.createdAt <= s[0].createdAt
    requires NewestFirst(rest) && multiset(rest) == multiset(s[1..]) + multiset{x}
    ensures NewestFirst([s[0]] + rest)
  {
    forall y | y in rest ensures s[0].createdAt >= y.createdAt {
      assert y in multiset(rest);
      if y != x {
        assert y in multiset(s[1..]);
        var k :| 0 <= k < |s[1..]| && s[1..][k] == y;
        assert s[k + 1] == y;
      }
    }
    assert forall j :: 0 < j < |[s[0]] + rest| ==> ([s[0]] + rest)[j] in rest;
  }

  /** `list.sort((a, b) => b.createdAt - a.createdAt)` */
  function SortNewestFirst(s: seq<Feedback>): (r: seq<Feedback>)
    ensures NewestFirst(r)
    ensures multiset(r) == multiset(s)
  {
    if s == [] then []
    else
      assert s == s[..|s| - 1] + [s[|s| - 1]];
      InsertNewestFirst(s[|s| - 1], SortNewestFirst(s[..|s| - 1]))
  }

  /** The inbox built from a fetched list: the unread entries, newest first. */
  function Inbox(fetched: seq<Feedback>): (r: seq<Feedback>)
    ensures NewestFirst(r)
    ensures |r| <= |fetched|
  {
    var unread := Filter(fetched, (fb: Feedback) => !fb.isRead);
    assert |SortNewestFirst(unread)| == |multiset(SortNewestFirst(unread))| == |multiset(unread)| == |unread|;
    SortNewestFirst(unread)
  }

  /**
   * The inbox holds exactly the unread entries of the response, each as often as the
   * response has it, ordered newest first.
   */
  lemma InboxSpec(fetched: seq<Feedback>)
    ensures NewestFirst(Inbox(fetched))
    ensures forall fb: Feedback :: multiset(Inbox(fetched))[fb] == if fb.isRead then 0 else multiset(fetched)[fb]
    ensures forall fb: Feedback :: fb in Inbox(fetched) <==> fb in fetched && !fb.isRead
  {
    forall fb: Feedback ensures multiset(Inbox(fetched))[fb] == if fb.isRead then 0 else multiset(fetched)[fb] {
      FilterMultiset(fetched, (fb: Feedback) => !fb.isRead, fb);
    }
    forall fb: Feedback ensures fb in Inbox(fetched) <==> fb in fetched && !fb.isRead {
      assert fb in Inbox(fetched) <==> fb in multiset(Inbox(fetched));
      assert fb in fetched <==> fb in multiset(fetched);
    }
  }

  /** Removing entries from a newest-first list keeps it newest first. */
  lemma {:induction false} FilterKeepsNewestFirst(s: seq<Feedback>, p: Feedback -> bool)
    requires NewestFirst(s)
    ensures NewestFirst(Filter(s, p))
  {
    if s != [] {
      FilterKeepsNewestFirst(s[1..], p);
      var rest := Filter(s[1..], p);
      forall j | 0 <= j < |rest| ensures s[0].createdAt >= rest[j].createdAt {
        FilterMembership(s[1..], p, rest[j]);
        var k :| 0 <= k < |s[1..]| && s[1..][k] == rest[j];
        assert s[k + 1] == rest[j];
      }
    }
  }

  /** `prevFeedbacks.filter(fb => fb._id !== feedbackId)` */
  function RemoveById(s: seq<Feedback>, id: string): (r: seq<Feedback>)
    ensures |r| <= |s|
    ensures forall fb :: fb in r ==> fb.id != id
  {
    var keep := (fb: Feedback) => fb.id != id;
    assert forall fb :: fb in Filter(s, keep) ==> fb.id != id by {
      forall fb | fb in Filter(s, keep) ensures fb.id != id {
        FilterMembership(s, keep, fb);
      }
    }
    Filter(s, keep)
  }

  /**
   * Removal drops every entry with the id and keeps each other entry, as often as
   * before and in the same relative order.
   */
  lemma RemoveByIdSpec(s: seq<Feedback>, id: string)
    ensures IsSubsequence(RemoveById(s, id), s)
    ensures forall fb: Feedback :: fb in RemoveById(s, id) <==> fb in s && fb.id != id
    ensures forall fb: Feedback :: fb.id != id ==> multiset(RemoveById(s, id))[fb] == multiset(s)[fb]
  {
    forall fb: Feedback ensures fb in RemoveById(s, id) <==> fb in s && fb.id != id {
      FilterMembership(s, (fb: Feedback) => fb.id != id, fb);
    }
    FilterIsSubsequence(s, (fb: Feedback) => fb.id != id);
    forall fb: Feedback ensures multiset(RemoveById(s, id))[fb] == if fb.id != id then multiset(s)[fb] else 0 {
      FilterMultiset(s, (fb: Feedback) => fb.id != id, fb);
    }
  }

  /** Outcome of `GET /admin/feedback`. */
  datatype FetchResult = Fetched(data: seq<Feedback>) | Unauthorized | Failed

  /** The feedback page's state. */
  class FeedbackInbox {
    var feedbacks: seq<Feedback>
    var selected: Option<Feedback>
    var loading: bool
    var error: Option<string>

    /** What every handler keeps: the list holds only unread entries, newest first. */
    ghost predicate Valid()
      reads this
    {
      NewestFirst(feedbacks) && forall fb: Feedback :: fb in feedbacks ==> !fb.isRead
    }

    constructor ()
      ensures Valid() && feedbacks == [] && selected == None && loading && error == None
    {
      feedbacks := [];
      selected := None;
      loading := true;
      error := None;
    }

    /** `unreadCount` */
    function UnreadCount(): (n: nat)
      reads this
      ensures n == 0 <==> feedbacks == []
    {
      |feedbacks|
    }

    /** The "Mark All as Read" button is shown exactly when something is unread. */
    predicate ShowsMarkAllButton()
      reads this
      ensures ShowsMarkAllButton() <==> feedbacks != []
    {
      UnreadCount() > 0
    }

    /**
     * `fetchFeedbacks`: the error is cleared first; without a token nothing is fetched;
     * a response becomes the inbox; a failure keeps the list and records an error.
     */
    method FetchFeedbacks(hasToken: bool, result: FetchResult)
      requires Valid()
      modifies this`feedbacks, this`loading, this`error
      ensures Valid() && !loading
      ensures hasToken && result.Fetched? ==> feedbacks == Inbox(result.data) && error == None
      ensures hasToken && !result.Fetched? ==> feedbacks == old(feedbacks) && error == Some("Failed to fetch feedback.")
      ensures !hasToken ==> feedbacks == old(feedbacks) && error == None
    {
      loading := true;
      error := None;
      if hasToken {
        if result.Fetched? {
          InboxSpec(result.data);
          feedbacks := Inbox(result.data);
        } else {
          error := Some("Failed to fetch feedback.");
        }
      }
      loading := false;
    }

    /** `handleMarkAsRead`: with a token, the entry leaves the list before the request is sent. */
    method MarkAsRead(feedbackId: string, hasToken: bool)
      requires Valid()
      modifies this`feedbacks
      ensures Valid()
      ensures hasToken ==> feedbacks == RemoveById(old(feedbacks), feedbackId)
      ensures !hasToken ==> feedbacks == old(feedbacks)
    {
      if hasToken {
        FilterKeepsNewestFirst(feedbacks, (fb: Feedback) => fb.id != feedbackId);
        RemoveByIdSpec(feedbacks, feedbackId);
        feedbacks := RemoveById(feedbacks, feedbackId);
      }
    }

    /** `handleMarkAllAsRead`: once confirmed (and with a token) the list is emptied. */
    method MarkAllAsRead(confirmed: bool, hasToken: bool)
      requires Valid()
      modifies this`feedbacks
      ensures Valid()
      ensures confirmed && hasToken ==> feedbacks == []
      ensures !(confirmed && hasToken) ==> feedbacks == old(feedbacks)
    {
      if confirmed && hasToken {
        feedbacks := [];
      }
    }

    /** `handleViewDetails`: the entry is marked read (removed) and becomes the selected one. */
    method ViewDetails(fb: Feedback, hasToken: bool)
      requires Valid()
      modifies this`feedbacks, this`selected
      ensures Valid()
      ensures selected == Some(fb)
      ensures hasToken ==> feedbacks == RemoveById(old(feedbacks), fb.id) && fb !in feedbacks
      ensures !hasToken ==> feedbacks == old(feedbacks)
    {
      MarkAsRead(fb.id, hasToken);
      if hasToken {
        RemoveByIdSpec(old(feedbacks), fb.id);
      }
      selected := Some(fb);
    }

    /** Closing the detail modal. */
    method CloseDetails()
      modifies this`selected
      ensures selected == None
    {
      selected := None;
    }
  }
}
