/** The generics-and-traits chapter: the generic `add`, `Point::mixup`, the
    `Summary` trait on articles and microblog posts, and demo_3's point
    addition and `OutlinePrint`, which repeat definitions of the advanced
    traits chapter and are modelled once, in `AdvancedTrait`. */
module GenericsTrait {
  import opened RustStd
  import opened Text

  /** `add::<i32>`: `a + b`, which must not overflow. */
  function Add(a: i32, b: i32): (r: i32)
    requires I32_MIN <= a + b <= I32_MAX
    ensures r - b == a && r - a == b
  {
    a + b
  }

  lemma AddCommutative(a: i32, b: i32)
    requires I32_MIN <= a + b <= I32_MAX
    ensures Add(a, b) == Add(b, a)
  {
  }

  /** demo_0's `Point<T, U>`, with independent coordinate types. */
  datatype GenericPoint<T, U> = GenericPoint(x: T, y: U)

  /** `mixup`: `x` from `self`, `y` from `other`. */
  function Mixup<T, U, V, W>(self: GenericPoint<T, U>, other: GenericPoint<V, W>): (r: GenericPoint<T, W>)
    ensures r.x == self.x && r.y == other.y
  {
    GenericPoint(self.x, other.y)
  }

  /** Mixing a point with itself gives it back. */
  lemma MixupSelf<T, U>(p: GenericPoint<T, U>)
    ensures Mixup(p, p) == p
  {
  }

  /** Only the outer points matter in a chain of mixups. */
  lemma MixupChain<T, U, V, W, X, Y>(a: GenericPoint<T, U>, b: GenericPoint<V, W>, c: GenericPoint<X, Y>)
    ensures Mixup(Mixup(a, b), c) == Mixup(a, c)
    ensures Mixup(a, Mixup(b, c)) == Mixup(a, c)
  {
  }

  /** demo_0: `{ x: 5, y: 10.4 }` mixed with `{ x: "Hello", y: 'c' }`. */
  lemma MixupDemo()
    ensures Mixup(GenericPoint(5, 10.4), GenericPoint("Hello", 'c')) == GenericPoint(5, 'c')
  {
  }

  /** The two `Summary` implementors of demo_1. */
  datatype Item =
    | Post(title: string, author: string, content: string)
    | Weibo(username: string, content: string)

  const PostOpen := "文章《"
  const PostMiddle := "》, 作者是"
  const WeiboMiddle := "发表了微博: "

  /** `Summary::summarize`: `"文章《{}》, 作者是{}"` for an article,
      `"{}发表了微博: {}"` for a microblog post. */
  function Summarize(item: Item): (s: string)
    ensures item.Post? ==> PostOpen + item.title + PostMiddle <= s
    ensures item.Post? ==> |s| == |PostOpen| + |item.title| + |PostMiddle| + |item.author|
    ensures item.Post? ==> s[|s| - |item.author|..] == item.author
    ensures item.Weibo? ==> item.username + WeiboMiddle <= s
    ensures item.Weibo? ==> s[|item.username| + |WeiboMiddle|..] == item.content
  {
    match item {
      case Post(title, author, _) =>
        var s := PostOpen + title + PostMiddle + author;
        assert s[|s| - |author|..] == author;
        s
      case Weibo(username, content) =>
        var s := username + WeiboMiddle + content;
        assert s[|username| + |WeiboMiddle|..] == content;
        s
    }
  }

  /** An article's summary does not show its content. */
  lemma PostSummaryIgnoresContent(title: string, author: string, c1: string, c2: string)
    ensures Summarize(Post(title, author, c1)) == Summarize(Post(title, author, c2))
  {
  }

  /** For one title the summary tells authors apart. */
  lemma PostSummaryNamesAuthor(title: string, a1: string, a2: string, c1: string, c2: string)
    requires Summarize(Post(title, a1, c1)) == Summarize(Post(title, a2, c2))
    ensures a1 == a2
  {
    var s := Summarize(Post(title, a1, c1));
    assert |a1| == |a2|;
    assert a1 == s[|s| - |a1|..] == a2;
  }

  /** For one user the summary tells microblog posts apart. */
  lemma WeiboSummaryNamesContent(username: string, c1: string, c2: string)
    requires Summarize(Weibo(username, c1)) == Summarize(Weibo(username, c2))
    ensures c1 == c2
  {
  }

  /** `notify` and `notify1`: the summary after "Breaking news! ". */
  function Notify(item: Item): (s: string)
    ensures "Breaking news! " <= s && s[|"Breaking news! "|..] == Summarize(item)
  {
    var s := "Breaking news! " + Summarize(item);
    assert s[|"Breaking news! "|..] == Summarize(item);
    s
  }

  /** `returns_summarizable`. */
  function ReturnsSummarizable(): (item: Item)
    ensures item.Weibo? && item.username == "sunface"
  {
    Weibo("sunface", "m1 max太厉害了，电脑再也不会卡")
  }

  /** demo_1's two summaries. */
  lemma SummarizeDemo()
    ensures Summarize(Post("Rust语言简介", "Sunface", "Rust棒极了!")) == "文章《Rust语言简介》, 作者是Sunface"
    ensures Summarize(Weibo("sunface", "好像微博没Tweet好用")) == "sunface发表了微博: 好像微博没Tweet好用"
  {
    PostSummaryDemo();
    WeiboSummaryDemo();
  }

  lemma PostSummaryDemo()
    ensures Summarize(Post("Rust语言简介", "Sunface", "Rust棒极了!")) == "文章《Rust语言简介》, 作者是Sunface"
  {
  }

  lemma WeiboSummaryDemo()
    ensures Summarize(Weibo("sunface", "好像微博没Tweet好用")) == "sunface发表了微博: 好像微博没Tweet好用"
  {
  }
}
