/** The object-oriented demos: `AveragedCollection`, a stack of `i32` that
    keeps the mean of its elements up to date, and the blog `Post` whose
    state object moves from Draft to PendingReview to Published. */
module Oop {
  import opened RustStd

  // ---------------------------------------------------------------------
  // AveragedCollection

  /** `iter().sum()` on `i32`: a left fold with `+`. */
  function Sum(s: seq<int>): int
  {
    if s == [] then 0 else Sum(s[..|s| - 1]) + s[|s| - 1]
  }

  /** The fold panics in a debug build as soon as a partial sum leaves the
      `i32` range, so every prefix sum has to fit. */
  predicate SumFits(s: seq<int>)
  {
    forall k :: 0 <= k <= |s| ==> I32_MIN <= Sum(s[..k]) <= I32_MAX
  }

  /** `total as f64 / len as f64`, exactly; `None` stands for the NaN that
      0.0 / 0.0 gives on an empty list. */
  function Mean(s: seq<int>): (m: Option<real>)
    ensures m.None? <==> s == []
    ensures m.Some? ==> m.value * (|s| as real) == Sum(s) as real
  {
    if s == [] then None else Some(Sum(s) as real / |s| as real)
  }

  /** `Vec::pop`: the last element and the rest, or nothing on an empty vector. */
  function Pop(s: seq<int>): (r: (Option<int>, seq<int>))
    ensures s == [] ==> r == (None, s)
    ensures s != [] ==> r.0 == Some(s[|s| - 1]) && r.1 + [s[|s| - 1]] == s
  {
    if s == [] then (None, s) else (Some(s[|s| - 1]), s[..|s| - 1])
  }

  /** A pop undoes the push before it (last in, first out). */
  lemma PopAfterPush(s: seq<int>, v: int)
    ensures Pop(s + [v]) == (Some(v), s)
  {
    assert (s + [v])[..|s|] == s;
  }

  /** A pop takes exactly one element off a non-empty list. */
  lemma PopShrinks(s: seq<int>)
    ensures s != [] ==> |Pop(s).1| == |s| - 1 && Pop(s).0.Some?
    ensures s == [] ==> Pop(s).0.None? && Pop(s).1 == s
  {
  }

  /** Popping keeps the prefix sums of what stays. */
  lemma SumFitsPrefix(s: seq<int>)
    requires SumFits(s) && s != []
    ensures SumFits(s[..|s| - 1])
  {
    var t := s[..|s| - 1];
    forall k | 0 <= k <= |t|
      ensures I32_MIN <= Sum(t[..k]) <= I32_MAX
    {
      assert t[..k] == s[..k];
    }
  }

  /** Pushing keeps the prefix sums when the new total fits. */
  lemma SumFitsPush(s: seq<int>, v: int)
    requires SumFits(s) && I32_MIN <= Sum(s) + v <= I32_MAX
    ensures SumFits(s + [v])
  {
    var t := s + [v];
    assert t[..|t| - 1] == s;
    forall k | 0 <= k <= |t|
      ensures I32_MIN <= Sum(t[..k]) <= I32_MAX
    {
      if k <= |s| {
        assert t[..k] == s[..k];
      } else {
        assert t[..k] == t;
        assert s[..|s|] == s;
      }
    }
  }

  class AveragedCollection {
    var list: seq<i32>
    var average: Option<real>

    /** The mean is that of the list, except that a collection emptied by
        `remove` holds NaN and a new one holds 0.0. */
    ghost predicate Valid()
      reads this
    {
      && SumFits(list)
      && (list != [] ==> average == Mean(list))
      && (list == [] ==> average == Some(0.0) || average == None)
    }

    /** `AveragedCollection::new`. */
    constructor ()
      ensures Valid() && list == [] && average == Some(0.0)
    {
      list := [];
      average := Some(0.0);
    }

    /** `update_average`. */
    method UpdateAverage()
      requires SumFits(list)
      modifies this`average
      ensures average == Mean(list)
    {
      assert list[..|list|] == list;
      var total := Sum(list);
      if |list| == 0 {
        average := None;
      } else {
        average := Some(total as real / |list| as real);
      }
    }

    /** `add`: pushes `value` and recomputes the mean; the new total must fit
        in an `i32`. */
    method Add(value: i32)
      requires Valid() && I32_MIN <= Sum(list) + value <= I32_MAX
      modifies this
      ensures Valid()
      ensures list == old(list) + [value]
      ensures average == Mean(list)
    {
      SumFitsPush(list, value);
      list := list + [value];
      UpdateAverage();
    }

    /** `remove`: pops the last value and recomputes the mean; on an empty
        collection nothing changes. */
    method Remove() returns (r: Option<i32>)
      requires Valid()
      modifies this
      ensures Valid()
      ensures (r, list) == Pop(old(list))
      ensures r.Some? ==> average == Mean(list)
      ensures r.None? ==> average == old(average)
    {
      if list == [] {
        r := None;
      } else {
        SumFitsPrefix(list);
        r := Some(list[|list| - 1]);
        list := list[..|list| - 1];
        UpdateAverage();
      }
    }
  }

  /** demo_1: add 1, 2, 3; remove; add 4. */
  method AveragedDemo() returns (first: Option<real>, removed: Option<i32>, second: Option<real>, last: Option<real>)
    ensures first == Some(2.0) && removed == Some(3)
    ensures second == Some(1.5) && last == Some(7.0 / 3.0)
  {
    var ac := new AveragedCollection();
    DemoSums();
    ac.Add(1);
    ac.Add(2);
    ac.Add(3);
    assert ac.list == [1, 2, 3];
    first := ac.average;
    removed := ac.Remove();
    assert ac.list == [1, 2];
    second := ac.average;
    ac.Add(4);
    assert ac.list == [1, 2, 4];
    last := ac.average;
    DemoMeans();
  }

  /** The running totals of demo_1. */
  lemma DemoSums()
    ensures Sum([1]) == 1 && Sum([1, 2]) == 3 && Sum([1, 2, 3]) == 6 && Sum([1, 2, 4]) == 7
  {
    assert [1, 2][..1] == [1];
    assert [1, 2, 3][..2] == [1, 2];
    assert [1, 2, 4][..2] == [1, 2];
  }

  /** The means demo_1 reads. */
  lemma DemoMeans()
    ensures Mean([1, 2, 3]) == Some(2.0) && Mean([1, 2]) == Some(1.5) && Mean([1, 2, 4]) == Some(7.0 / 3.0)
  {
    DemoSums();
  }

  // ---------------------------------------------------------------------
  // Post

  /** The three `State` implementations. */
  datatype State = Draft | PendingReview | Published

  /** What a post's owner can do to its state. */
  datatype Action = RequestReview | Approve

  /** `State::request_review` and `State::approve` of each implementation. */
  function Step(s: State, a: Action): (r: State)
    ensures a == RequestReview ==> (r == PendingReview <==> s != Published) && (r == Published <==> s == Published)
    ensures a == Approve ==> (r == Published <==> s != Draft) && (r == Draft <==> s == Draft)
  {
    match (s, a)
    case (Draft, RequestReview) => PendingReview
    case (PendingReview, Approve) => Published
    case _ => s
  }

  /** `State::content`: the default gives "", Published gives the post's text. */
  function StateContent(s: State, text: string): (r: string)
    ensures r == text || r == ""
    ensures s != Published ==> r == ""
    ensures s == Published ==> r == text
  {
    if s == Published then text else ""
  }

  /** How far along the workflow a state is. */
  function Rank(s: State): nat
  {
    match s
    case Draft => 0
    case PendingReview => 1
    case Published => 2
  }

  /** A step never goes back and never skips a state. */
  lemma StepMonotone(s: State, a: Action)
    ensures Rank(s) <= Rank(Step(s, a)) <= Rank(s) + 1
  {
  }

  /** The state after a sequence of actions. */
  function After(s: State, acts: seq<Action>): State
    decreases |acts|
  {
    if acts == [] then s else After(Step(s, acts[0]), acts[1..])
  }

  /** Nothing leaves Published. */
  lemma {:induction false} PublishedStays(acts: seq<Action>)
    ensures After(Published, acts) == Published
  {
    if acts != [] {
      PublishedStays(acts[1..]);
    }
  }

  /** A post under review is published exactly when an approval comes. */
  lemma {:induction false} ReviewedPublished(acts: seq<Action>)
    ensures After(PendingReview, acts) == Published <==> exists j :: 0 <= j < |acts| && acts[j] == Approve
  {
    if acts != [] {
      if acts[0] == Approve {
        PublishedStays(acts[1..]);
      } else {
        ReviewedPublished(acts[1..]);
        if exists j :: 0 <= j < |acts| && acts[j] == Approve {
          var j :| 0 <= j < |acts| && acts[j] == Approve;
          assert acts[1..][j - 1] == Approve;
        }
        if exists j :: 0 <= j < |acts[1..]| && acts[1..][j] == Approve {
          var j :| 0 <= j < |acts[1..]| && acts[1..][j] == Approve;
          assert acts[j + 1] == Approve;
        }
      }
    }
  }

  /** A draft is published exactly when a review request is followed, at some
      later point, by an approval: approving a draft does nothing. */
  lemma {:induction false} DraftPublished(acts: seq<Action>)
    ensures After(Draft, acts) == Published
        <==> exists i, j :: 0 <= i < j < |acts| && acts[i] == RequestReview && acts[j] == Approve
  {
    if acts != [] {
      var rest := acts[1..];
      if acts[0] == RequestReview {
        ReviewedPublished(rest);
        if exists j :: 0 <= j < |rest| && rest[j] == Approve {
          var j :| 0 <= j < |rest| && rest[j] == Approve;
          assert acts[0] == RequestReview && acts[j + 1] == Approve;
        }
        if exists i, j :: 0 <= i < j < |acts| && acts[i] == RequestReview && acts[j] == Approve {
          var i, j :| 0 <= i < j < |acts| && acts[i] == RequestReview && acts[j] == Approve;
          assert rest[j - 1] == Approve;
        }
      } else {
        DraftPublished(rest);
        if exists i, j :: 0 <= i < j < |acts| && acts[i] == RequestReview && acts[j] == Approve {
          var i, j :| 0 <= i < j < |acts| && acts[i] == RequestReview && acts[j] == Approve;
          assert i > 0;
          assert rest[i - 1] == RequestReview && rest[j - 1] == Approve;
        }
        if exists i, j :: 0 <= i < j < |rest| && rest[i] == RequestReview && rest[j] == Approve {
          var i, j :| 0 <= i < j < |rest| && rest[i] == RequestReview && rest[j] == Approve;
          assert acts[i + 1] == RequestReview && acts[j + 1] == Approve;
        }
      }
    }
  }

  class Post {
    var state: Option<State>
    var content: string

    /** The state is only ever `None` in the middle of a transition. */
    ghost predicate Valid()
      reads this
    {
      state.Some?
    }

    /** `Post::new`: a draft with no text. */
    constructor ()
      ensures Valid() && state == Some(Draft) && content == ""
    {
      state := Some(Draft);
      content := "";
    }

    /** `Post::content`: what the current state lets the reader see. */
    method Content() returns (r: string)
      requires Valid()
      ensures r == StateContent(state.value, content)
    {
      r := StateContent(state.value, content);
    }

    /** `add_text`: appends to the text, whatever the state. */
    method AddText(text: string)
      modifies this`content
      ensures content == old(content) + text
    {
      content := content + text;
    }

    /** `take` the state, then put back its `request_review`. */
    method RequestReview()
      modifies this`state
      ensures state == if old(state).Some? then Some(Step(old(state).value, Action.RequestReview)) else None
    {
      var s := state;
      state := None;
      if s.Some? {
        state := Some(Step(s.value, Action.RequestReview));
      }
    }

    /** `take` the state, then put back its `approve`. */
    method Approve()
      modifies this`state
      ensures state == if old(state).Some? then Some(Step(old(state).value, Action.Approve)) else None
    {
      var s := state;
      state := None;
      if s.Some? {
        state := Some(Step(s.value, Action.Approve));
      }
    }
  }

  /** demo_3: the text is hidden in draft and in review, and shown once approved. */
  method PostDemo() returns (inDraft: string, inReview: string, published: string)
    ensures inDraft == "" && inReview == ""
    ensures published == "I ate a salad for lunch today"
  {
    var post := new Post();
    post.AddText("I ate a salad for lunch today");
    inDraft := post.Content();
    post.RequestReview();
    inReview := post.Content();
    post.Approve();
    published := post.Content();
  }
}
