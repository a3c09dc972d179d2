# rust-practice, sequential components

This project is a Dafny model of the small, deterministic components of a Rust
learning repository. It models the components themselves, together with the
demos and tests that exercise them:

- `minigrep` (argument validation and line search);
- the blog `Post` state machine and the `AveragedCollection` stack;
- the memoising `Cacher`;
- the quota `LimitTracker` with its mock messenger;
- insert-if-absent `get_default` and `longest`;
- `split_at_mut` and the global counter;
- `first_word`;
- the pattern-matching and branching demos;
- operator overloading and `Display` renderings;
- the coin, rectangle, closure and loop demos.

Each Rust source file is one Dafny module. The module follows the form of its
source:

- Code that builds values becomes datatypes and functions.
- Objects whose fields change become classes with `modifies` frames.
- Loops become methods with invariants. Each method is proved against a
  specification function, and lemmas prove the properties of that function.

Two modules hold shared definitions:

- `RustStd`: `Option`, `Result`, the integer widths as subset types, and Rust's
  truncating `%`.
- `Text`: the string operations of the standard library the code uses. These
  are UTF-8 byte length, `contains`, ASCII lowercasing, `repeat`, `join`, and
  decimal rendering with its read-back.

Rust's debug-build overflow panics are preconditions. The integer types are
subset types of the same width.

## Model

| member | source | states |
|---|---|---|
| Minigrep.NewConfig | minigrep/src/lib.rs:13-30 | Err("not enough arguments") exactly when fewer than 3 arguments; otherwise query is args[1], filename args[2], and case sensitivity holds exactly when CASE_INSENSITIVE is unset |
| Minigrep.Lines | minigrep/src/lib.rs:55 | no produced line contains '\n', there are no more lines than characters, and non-empty text has at least one line |
| Minigrep.LinesJoin | minigrep/src/lib.rs:55 | for text without '\r', the lines joined by '\n' are the text minus one final '\n': splitting loses and adds nothing else |
| Minigrep.SelectedIsOrderedFilter | minigrep/src/lib.rs:52-61 | the result is exactly the kept lines as a subsequence: k-th result is the line at the k-th kept position, positions strictly increase, every kept line's position is included |
| Minigrep.SelectedMembers | minigrep/src/lib.rs:55-58 | a line is in the result iff it is a line of the text that the search keeps |
| Minigrep.SelectedLength | minigrep/src/lib.rs:55-58 | a search never returns more entries than the text has lines |
| Minigrep.Search | minigrep/src/lib.rs:52-61 | the push loop returns exactly the ordered selection of lines containing the query |
| Minigrep.SearchCaseInsensitive | minigrep/src/lib.rs:63-73 | the push loop returns exactly the original lines whose lowercase form contains the lowercased query, in order |
| Minigrep.Run | minigrep/src/lib.rs:39-43 | uses the case-sensitive selection when the configuration says so and the case-insensitive one otherwise |
| Minigrep.CaseSensitiveTest | minigrep/src/lib.rs:79-88 | "duct" on the four-line text yields exactly ["safe, fast, productive."] |
| Minigrep.CaseInsensitiveTest | minigrep/src/lib.rs:90-102 | "rUsT" case-insensitively yields exactly ["Rust:", "Trust me."] |
| Text.ContainsOccurs | minigrep/src/lib.rs:56 | `contains` holds iff the pattern occurs at some position of the text |
| Text.LowerMember | minigrep/src/lib.rs:68 | a lowercase letter is in the lowercased text iff it or its uppercase form is in the text |
| Text.ToLowerIdempotent | minigrep/src/lib.rs:64-68 | lowercasing twice equals lowercasing once |
| Text.ToLower | minigrep/src/lib.rs:64-68 | same length, and each character is replaced by its ASCII-lowercase form |
| Text.ToLowerAppend | minigrep/src/lib.rs:64-68 | lowercasing a concatenation lowercases each part |
| Text.ContainsTooLong | minigrep/src/lib.rs:56 | a pattern longer than the text is never contained |
| Text.ContainsChars | minigrep/src/lib.rs:56 | every character of a contained pattern occurs in the text |
| Text.NotContainsWithout | minigrep/src/lib.rs:56 | a text lacking one of the pattern's characters does not contain it |
| Text.NotContainsConcat | minigrep/src/lib.rs:56 | a prefix lacking the pattern's first character cannot start an occurrence, so only the rest decides |
| Text.Utf8Len | practice/src/advanced_features/advanced_trait.rs:137 | `len` counts between one and four bytes per character |
| Text.Utf8LenAscii | practice/src/advanced_features/advanced_trait.rs:137 | on ASCII text `len` is the number of characters |
| Text.Utf8LenAppend | practice/src/advanced_features/advanced_trait.rs:137-142 | the byte length of a concatenation is the sum of the byte lengths |
| Text.Repeat | practice/src/advanced_features/advanced_trait.rs:138-142 | `repeat(n)` of a one-character string is n copies of that character and nothing else |
| Text.RepeatAsciiLen | practice/src/advanced_features/advanced_trait.rs:138-142 | an ASCII character repeated n times is n bytes long |
| Text.JoinAppend | practice/src/advanced_features/advanced_trait.rs:174 | joining two non-empty lists is joining each and putting one separator between them |
| Text.JoinCons | practice/src/advanced_features/advanced_trait.rs:174 | a part in front of a non-empty list is followed by exactly one separator |
| Text.ShowInt | practice/src/advanced_features/advanced_function.rs:22 | `to_string` of an integer is non-empty, starts with '-' exactly for a negative one, and is digits everywhere else |
| Text.ParseShowNat | practice/src/advanced_features/advanced_function.rs:22 | the digits of a natural number read back to it |
| Text.ShowIntInjective | practice/src/advanced_features/advanced_function.rs:22 | different integers render differently |
| Text.ShowIntPlain | practice/src/advanced_features/advanced_trait.rs:151 | a rendered integer holds no comma and no space, so "(x, y)" splits back unambiguously |
| Oop.Mean | practice/src/oop.rs:34-37 | no mean (NaN) exactly for the empty list; otherwise mean times length equals the sum |
| Oop.Pop | practice/src/oop.rs:21 | empty vector gives None and is unchanged; otherwise the last element, and the rest plus it is the old vector |
| Oop.PopAfterPush | practice/src/oop.rs:16-26 | a pop right after a push returns the pushed value and restores the list (LIFO) |
| Oop.PopShrinks | practice/src/oop.rs:20-29 | a pop on a non-empty list returns a value and removes exactly one element; on an empty list it returns None and changes nothing |
| Oop.AveragedCollection.constructor | practice/src/oop.rs:10-15 | empty list, average 0.0 |
| Oop.AveragedCollection.UpdateAverage | practice/src/oop.rs:34-37 | average becomes the exact mean of the list (None standing for NaN) |
| Oop.AveragedCollection.Add | practice/src/oop.rs:16-19 | list is the old list plus the value at the end, average is the new mean, invariant kept |
| Oop.AveragedCollection.Remove | practice/src/oop.rs:20-29 | result and new list are the pop of the old list; mean recomputed when something was removed, unchanged otherwise |
| Oop.AveragedDemo | practice/src/oop.rs:43-56 | averages 2, then removed 3 and average 1.5, then 7/3 |
| Oop.Step | practice/src/oop.rs:189-215 | request_review yields PendingReview unless Published; approve yields Published unless Draft; every other pair keeps the state |
| Oop.StateContent | practice/src/oop.rs:183-218 | "" in Draft and PendingReview, the post's text in Published |
| Oop.StepMonotone | practice/src/oop.rs:189-215 | a step never moves back and never skips a state |
| Oop.PublishedStays | practice/src/oop.rs:208-215 | no sequence of actions leaves Published |
| Oop.ReviewedPublished | practice/src/oop.rs:198-215 | from PendingReview the post ends Published iff some action is an approval |
| Oop.DraftPublished | practice/src/oop.rs:188-215 | from Draft the post ends Published iff a review request is followed later by an approval |
| Oop.Post.constructor | practice/src/oop.rs:150-155 | a Draft with empty content |
| Oop.Post.Content | practice/src/oop.rs:156-159 | what the current state shows of the content |
| Oop.Post.AddText | practice/src/oop.rs:160-162 | content is the old content followed by the text, in any state |
| Oop.Post.RequestReview | practice/src/oop.rs:163-168 | the taken state is replaced by its request_review step; only the state changes |
| Oop.Post.Approve | practice/src/oop.rs:169-173 | the taken state is replaced by its approve step; only the state changes |
| Oop.PostDemo | practice/src/oop.rs:221-229 | "" in draft, "" in review, the full text once approved |
| Closure.Cacher.constructor | practice/src/closure/closure.rs:21-26 | keeps the calculation, nothing cached, no computation yet |
| Closure.Cacher.Value | practice/src/closure/closure.rs:27-36 | a cached value is returned whatever the argument and never changes; otherwise calculation(arg) is computed, stored and returned; the calculation runs at most once overall, and the cached value is always the calculation of the first argument |
| Closure.Expensive | practice/src/closure/closure.rs:46-50 | the closure given to the `Cacher` returns its argument |
| Closure.CallWithDifferentValues | practice/src/closure/closure.rs:76-84 | the second call with 2 returns the first result 1, so the commented-out assert v2 == 2 would fail |
| Closure.GenerateWorkout | practice/src/closure/closure.rs:38-65 | intensity < 25 gives pushups and situps equal to it with one computation; otherwise random 3 gives a break with none, and any other number a run with one |
| Closure.WorkoutDemo | practice/src/closure/closure.rs:67-72 | intensity 10 and random 7 give 10 pushups and 10 situps |
| RefCell.Warning | practice/src/smart_pointer/_refcell.rs:32-44 | at most one message: over-quota iff the ratio reaches 1, urgent iff it reaches 0.9 but not 1, warning iff 0.75 but not 0.9, none below 0.75 |
| RefCell.RatioCrossMultiplied | practice/src/smart_pointer/_refcell.rs:32-43 | for max > 0 the three ratio tests equal value >= max, 10*value >= 9*max and 4*value >= 3*max |
| RefCell.RatioNested | practice/src/smart_pointer/_refcell.rs:34-43 | reaching a higher threshold implies reaching the lower ones |
| RefCell.WarningMonotone | practice/src/smart_pointer/_refcell.rs:34-44 | a larger value never gets a milder message |
| RefCell.MockMessenger.constructor | practice/src/smart_pointer/_refcell.rs:58-62 | nothing sent |
| RefCell.MockMessenger.Send | practice/src/smart_pointer/_refcell.rs:66-71 | the message is appended after those already sent |
| RefCell.LimitTracker.constructor | practice/src/smart_pointer/_refcell.rs:22-28 | keeps messenger and max, value 0 |
| RefCell.LimitTracker.SetValue | practice/src/smart_pointer/_refcell.rs:29-45 | records the value and appends to the messenger exactly the messages Warning calls for |
| RefCell.SendsOver75PercentWarning | practice/src/smart_pointer/_refcell.rs:74-83 | 80 of 100 sends exactly one message, the 75% warning |
| Lifecycle.Longest | practice/src/lifecycle.rs:38-44 | x exactly when its byte length exceeds y's, otherwise y; the result has the larger length |
| Lifecycle.LongestLengthSymmetric | practice/src/lifecycle.rs:38-44 | the result's length does not depend on argument order; a tie returns the second argument |
| Lifecycle.Level | practice/src/lifecycle.rs:21-23 | always 3 |
| Lifecycle.LevelConstant | practice/src/lifecycle.rs:20-24 | the level does not depend on the excerpt |
| Lifecycle.InsertDefault | practice/src/lifecycle.rs:111-120 | key present afterwards and mapped to the returned value; existing key: map unchanged and stored value returned; missing key: default returned; other keys and values unchanged |
| Lifecycle.InsertDefaultGrowth | practice/src/lifecycle.rs:113-118 | the map gains one key exactly when the key was missing |
| Lifecycle.InsertDefaultIdempotent | practice/src/lifecycle.rs:113-118 | a second call with the same key changes nothing and returns the same value |
| Lifecycle.HashMap.GetDefault | practice/src/lifecycle.rs:97-121 | new map and returned value are InsertDefault of the old map |
| Lifecycle.Point.MoveTo | practice/src/lifecycle.rs:196-199 | both coordinates set to the arguments |
| Lifecycle.ReborrowDemo | practice/src/lifecycle.rs:202-212 | the move through the reborrowed reference leaves the point at (10, 10) |
| UnsafeRust.RawPointerDemo | practice/src/advanced_features/unsafe_rust.rs:11-22 | *r1 reads 5; after *r2 = 10 both pointers read 10 |
| UnsafeRust.SplitAtMut | practice/src/advanced_features/unsafe_rust.rs:31-43 | panics (Err with the assert message) iff mid > len; otherwise parts of lengths mid and len - mid that concatenate to the slice |
| UnsafeRust.SplitAtMutElements | practice/src/advanced_features/unsafe_rust.rs:37-42 | the first part holds slice[0..mid] element for element, the second slice[mid..len] |
| UnsafeRust.SplitAtMutDemo | practice/src/advanced_features/unsafe_rust.rs:50-56 | [1..6] split at 3 gives [1,2,3] and [4,5,6] |
| UnsafeRust.Statics.constructor | practice/src/advanced_features/unsafe_rust.rs:80 | COUNTER starts at 0 |
| UnsafeRust.Statics.AddToCount | practice/src/advanced_features/unsafe_rust.rs:81-85 | COUNTER grows by exactly inc |
| UnsafeRust.CounterDemo | practice/src/advanced_features/unsafe_rust.rs:86-94 | COUNTER is 3 after add_to_count(3) |
| Slice.FirstWord | src/practice/ownership/slice.rs:10-19 | the result is a prefix of s without a space, followed in s by a space or by the end |
| Slice.FirstWordUnique | src/practice/ownership/slice.rs:10-19 | those three conditions determine one word: the prefix before the first space |
| Slice.FirstWordDemo | src/practice/ownership/slice.rs:20-25 | "hello world" gives "hello" |
| Slice.FixedSlices | src/practice/ownership/slice.rs:2-5 | [0..5] and [6..] of "hello world" are "hello" and "world" |
| Slice.ArraySlice | src/practice/ownership/slice.rs:27-29 | a[1..3] of [1, 2, 3, 4, 5] is [2, 3] |
| Matches.ChooseBackground | practice/src/matches.rs:8-20 | favourite colour iff given; otherwise green iff Tuesday; otherwise purple iff the age parsed and exceeds 30, orange iff parsed and at most 30, blue iff it did not parse |
| Matches.ParseU8 | practice/src/matches.rs:6 | `Empty` iff the text is empty; after dropping one leading '+', success iff what is left is non-empty, all digits and at most 255, with that value; `PosOverflow` iff the leading run of digits exceeds 255; `InvalidDigit` iff nothing is left, or a non-digit follows a leading run of at most 255 |
| Matches.ScanDigitsResult | practice/src/matches.rs:6 | the left-to-right digit loop's verdict depends only on the leading run of digits: past 255 overflows, else a following character is invalid, else the run's value |
| Matches.ParseU8Errors | practice/src/matches.rs:6 | "999a" overflows before its 'a' is seen, "25a" is an invalid digit, a lone "+" is an invalid digit |
| Matches.ParseU8Show | practice/src/matches.rs:6 | every u8's decimal text parses back to it |
| Matches.BackgroundDemo | practice/src/matches.rs:3-21 | "34" parses to 34, and the favourite "Yellow" is chosen |
| Matches.DrainStack | practice/src/matches.rs:33-35 | the while-let loop prints the stack in reverse and leaves it empty |
| Matches.DrainDemo | practice/src/matches.rs:25-36 | pushing 1, 2, 3 prints 3, 2, 1 |
| Matches.MatchNamed | practice/src/matches.rs:61-67 | Got 50 iff Some(50); a new y bound to the value for any other Some; default case iff None |
| Matches.NamedVariableDemoResult | practice/src/matches.rs:59-68 | Some(5) binds the inner y to 5 and the outer y stays 10 |
| Matches.MatchSmall | practice/src/matches.rs:71-75 | first arm iff 1 or 2, second iff 3 |
| Matches.MatchRange | practice/src/matches.rs:79-82 | "one through five" iff 1 <= x <= 5 |
| Matches.MatchLetter | practice/src/matches.rs:85-89 | early iff 'a'..='j', late iff 'k'..='z', otherwise the default arm |
| Matches.MatchGuard | practice/src/matches.rs:110-117 | guarded arm iff Some(x) with x < 5, second arm for other Some, binding x; nothing for None |
| Matches.MatchId | practice/src/matches.rs:119-138 | first arm iff id in 3..=7, second iff in 10..=12, each binding id_variable to the id; otherwise the id arm |
| Matches.PatternDemo | practice/src/matches.rs:70-138 | demo_4's values take the arms the program prints |
| AdvancedTrait.PointAdd | practice/src/advanced_features/advanced_trait.rs:31-40 | component-wise sum |
| AdvancedTrait.PointAddCommutative | practice/src/advanced_features/advanced_trait.rs:34-39 | the addition commutes |
| AdvancedTrait.PointAddOrigin | practice/src/advanced_features/advanced_trait.rs:34-39 | the origin is neutral |
| AdvancedTrait.PointAddDemo | practice/src/advanced_features/advanced_trait.rs:50-57 | (1,0) + (2,3) == (3,3) |
| AdvancedTrait.AddMeters | practice/src/advanced_features/advanced_trait.rs:42-47 | millimetres plus 1000 times the metres |
| AdvancedTrait.AddMetersTwice | practice/src/advanced_features/advanced_trait.rs:44-46 | adding two lengths in metres one after the other is adding their sum |
| AdvancedTrait.AddMetersDemo | practice/src/advanced_features/advanced_trait.rs:60-64 | 1001000 mm + 1 m == 1002000 mm |
| AdvancedTrait.PointDisplay | practice/src/advanced_features/advanced_trait.rs:149-153 | parenthesised rendering |
| AdvancedTrait.PointDisplayInjective | practice/src/advanced_features/advanced_trait.rs:149-153 | points with the same "(x, y)" rendering are equal |
| AdvancedTrait.PointDisplayDemo | practice/src/advanced_features/advanced_trait.rs:157-159 | (1, 2) renders as "(1, 2)" |
| Text.ParseShowInt | practice/src/advanced_features/advanced_trait.rs:151 | the decimal rendering of every integer reads back to it |
| AdvancedTrait.WrapperDisplay | practice/src/advanced_features/advanced_trait.rs:172-176 | '[' + the items joined by ", " + ']' |
| AdvancedTrait.JoinLength | practice/src/advanced_features/advanced_trait.rs:174 | the joined length is the total of the items plus one separator per neighbouring pair |
| AdvancedTrait.WrapperDisplayDemo | practice/src/advanced_features/advanced_trait.rs:187-188 | ["hello","world"] renders "[hello, world]" |
| AdvancedTrait.Deref | practice/src/advanced_features/advanced_trait.rs:179-185 | the inner vector, unchanged: wrapping it back gives the wrapper |
| AdvancedTrait.Enumerate | practice/src/advanced_features/advanced_trait.rs:190-192 | each element paired with its index, in order |
| AdvancedTrait.EnumerateDemo | practice/src/advanced_features/advanced_trait.rs:186-193 | the loop visits (0, hello) and (1, world) |
| AdvancedTrait.OutlineLines | practice/src/advanced_features/advanced_trait.rs:135-143 | five lines, the output framed on the middle one, symmetric top and bottom |
| AdvancedTrait.OutlineWidths | practice/src/advanced_features/advanced_trait.rs:137-142 | each line is 4 bytes longer than the output |
| AdvancedTrait.OutlineShape | practice/src/advanced_features/advanced_trait.rs:138-142 | the border is all asterisks; a blank line is asterisks at both ends with spaces between |
| GenericsTrait.Add | practice/src/generics_trait.rs:8-10 | the result minus either argument is the other |
| GenericsTrait.AddCommutative | practice/src/generics_trait.rs:8-10 | the addition commutes |
| GenericsTrait.Mixup | practice/src/generics_trait.rs:26-33 | x from self, y from other |
| GenericsTrait.MixupSelf | practice/src/generics_trait.rs:27-32 | mixing a point with itself gives it back |
| GenericsTrait.MixupChain | practice/src/generics_trait.rs:27-32 | in a chain of mixups only the outer points matter |
| GenericsTrait.MixupDemo | practice/src/generics_trait.rs:47-53 | demo_0's mixup gives (5, 'c') |
| GenericsTrait.Summarize | practice/src/generics_trait.rs:81-96 | an article: "文章《title》, 作者是" then the author; a microblog post: the username, "发表了微博: " and the content |
| GenericsTrait.PostSummaryIgnoresContent | practice/src/generics_trait.rs:82-84 | an article's summary does not depend on its content |
| GenericsTrait.PostSummaryNamesAuthor | practice/src/generics_trait.rs:82-84 | for one title, equal summaries mean equal authors |
| GenericsTrait.WeiboSummaryNamesContent | practice/src/generics_trait.rs:93-95 | for one user, equal summaries mean equal contents |
| GenericsTrait.Notify | practice/src/generics_trait.rs:100-106 | "Breaking news! " followed by the summary |
| GenericsTrait.ReturnsSummarizable | practice/src/generics_trait.rs:124-129 | a microblog post by "sunface" |
| GenericsTrait.SummarizeDemo | practice/src/generics_trait.rs:145-157 | demo_1's two summaries, spelled out |
| Rectangle.Area | src/practice/_struct/rectangle.rs:6-8 | width times height, for the free function and for the method at lines 22-24 |
| Rectangle.CanHold | src/practice/_struct/rectangle.rs:40-44 | true iff no narrower and no lower than the other rectangle |
| Rectangle.CanHoldReflexive | src/practice/_struct/rectangle.rs:41-43 | every rectangle can hold itself |
| Rectangle.CanHoldTransitive | src/practice/_struct/rectangle.rs:41-43 | can_hold is transitive |
| Rectangle.CanHoldAntisymmetric | src/practice/_struct/rectangle.rs:41-43 | two rectangles that hold each other are equal |
| Rectangle.CanHoldArea | src/practice/_struct/rectangle.rs:41-43 | a rectangle that holds another has at least its area |
| Rectangle.Square | src/practice/_struct/rectangle.rs:74-81 | width and height both equal size |
| Rectangle.SquareArea | src/practice/_struct/rectangle.rs:83-88 | the square's area is size * size |
| Rectangle.RectangleDemos | src/practice/_struct/rectangle.rs:46-71 | 30×50 holds 10×30 but not 40×50; areas 1500 and, for the square of 30, 900 |
| OptionDemo.ValueInCents | practice/src/enumerate/option.rs:9-16 | 1 iff a penny, 5 iff a nickel, 10 iff a dime, 25 iff a quarter, and no other value |
| OptionDemo.ValueInCentsInjective | practice/src/enumerate/option.rs:9-16 | different coins have different values |
| OptionDemo.ValueInCents1 | practice/src/enumerate/option.rs:38-48 | a quarter of any state is worth 25 |
| OptionDemo.ValuationsAgree | practice/src/enumerate/option.rs:38-48 | value_in_cents_1 agrees with value_in_cents once the state is dropped |
| OptionDemo.CoinDemos | practice/src/enumerate/option.rs:50-56 | a penny is 1, an Alabama quarter 25 |
| OptionDemo.PlusOne | practice/src/enumerate/option.rs:58-63 | None iff None; otherwise one more than the input |
| OptionDemo.PlusOneDemo | practice/src/enumerate/option.rs:65-71 | Some(5) gives Some(6), None gives None |
| AdvancedFunction.AddOne | practice/src/advanced_features/advanced_function.rs:7-9 | exactly one more than x |
| AdvancedFunction.DoTwice | practice/src/advanced_features/advanced_function.rs:11-13 | twice f(arg) |
| AdvancedFunction.DoTwiceDemo | practice/src/advanced_features/advanced_function.rs:16 | do_twice(add_one, 5) == 12 |
| AdvancedFunction.MapToString | practice/src/advanced_features/advanced_function.rs:22-27 | same length, and each string renders the element at the same position |
| AdvancedFunction.MapToStringReadBack | practice/src/advanced_features/advanced_function.rs:22-27 | each string reads back to the element it came from |
| AdvancedFunction.MapToStringDemo | practice/src/advanced_features/advanced_function.rs:20-22 | [1, 2, 3] gives ["1", "2", "3"] |
| AdvancedFunction.StatusRange | practice/src/advanced_features/advanced_function.rs:34 | n elements, the i-th Value(i) |
| AdvancedFunction.StatusRangeDemo | practice/src/advanced_features/advanced_function.rs:34 | 0u32..20 gives 20 values, Value(0) to Value(19), no Stop |
| AdvancedFunction.ReturnsClosure | practice/src/advanced_features/advanced_function.rs:43-45 | the boxed closure is defined on every i32 below the maximum and maps x to x + 1 |
| AdvancedFunction.ReturnsClosureAddsOne | practice/src/advanced_features/advanced_function.rs:43-45 | the returned closure maps x to x + 1 |
| Branchs.Demo2AsWritten | practice/src/general_concept/branchs.rs:10-20 | "by 4" iff 4 divides x; "by 3" iff 3 does and 4 not; "by 2" iff only 2 does; the final message iff none does |
| Branchs.Demo2AsWrittenMisreports | practice/src/general_concept/branchs.rs:17-18 | 1 gets the message claiming divisibility by 4, 3 or 2 |
| Branchs.Demo2 | practice/src/general_concept/branchs.rs:10-20 | the same classification with the final message negated |
| Branchs.Demo2Truthful | practice/src/general_concept/branchs.rs:11-19 | every message of the corrected report is true of x; 12, -9 and -10 are reported by 4, 3 and 2 |
| RustStd.TruncRem | practice/src/general_concept/branchs.rs:11 | Rust's remainder: smaller than the divisor in magnitude, with the sign of the dividend, and differing from the dividend by a multiple of the divisor |
| RustStd.TruncRemZero | practice/src/general_concept/branchs.rs:11-15 | Rust's remainder is zero iff Dafny's Euclidean one is |
| Branchs.Demo1 | practice/src/general_concept/branchs.rs:1-8 | "number was three!" iff x == 3 |
| Branchs.Demo3 | practice/src/general_concept/branchs.rs:22-26 | 10 iff the condition holds, else 11 |
| Branchs.BranchDemos | practice/src/general_concept/branchs.rs:1-26 | demo_1 with 3 says three, demo_3 with true gives 10 |
| LoopStructure.LoopWithBreak | src/practice/general_concept/loop_structure.rs:2-9 | the loop ends, breaking with 200 when index reaches 100 |
| LoopStructure.Countdown | src/practice/general_concept/loop_structure.rs:13-17 | the while loop prints start down to 1 and leaves index 0 |
| LoopStructure.CountdownDemo | src/practice/general_concept/loop_structure.rs:12-18 | from 10: 10, 9, ..., 1, then index 0 |
| LoopStructure.ArrayLoop | src/practice/general_concept/loop_structure.rs:21-24 | the array's elements, in order |
| LoopStructure.RangeLoop | src/practice/general_concept/loop_structure.rs:25-27 | lo, lo + 1, ..., hi - 1 |
| LoopStructure.RevRangeLoop | src/practice/general_concept/loop_structure.rs:28-30 | hi - 1 down to lo |
| LoopStructure.ForDemo | src/practice/general_concept/loop_structure.rs:20-31 | [1..5] from the array, 1..9, then 9..1 |
| Define.GenerateUser | practice/src/_struct/define.rs:9-17 | username and email copied, one sign-in, active |
| Define.WithUsername | practice/src/_struct/define.rs:49-52 | the new username; email, sign-in count and active from the base |
| Define.WithUsernameRestores | practice/src/_struct/define.rs:49-52 | putting the old username back gives the original user |
| Define.ReassignFields | practice/src/_struct/define.rs:27-39 | after the two assignments only username and email differ |
| Define.StructUpdateDemo | practice/src/_struct/define.rs:41-55 | user2 has the new username and user1's other fields |

## Left out

- The thread pool of `web-server/src/lib.rs` and the concurrency demos are not modelled. Their behaviour is threads, channels, locks and blocking joins.
- Standard output is left out everywhere. Methods return what the program prints instead of printing it.
- minigrep:
  - Reading the file at `minigrep/src/lib.rs:37` is left out; the file's text is a parameter of `Minigrep.Run`.
  - The `CASE_INSENSITIVE` lookup is a boolean parameter of `Minigrep.NewConfig`.
  - `process::exit` in `minigrep/src/main.rs` is left out.
- Minigrep.Lines: follows `str::lines` for '\n' and "\r\n" endings. It is not a full model of the library.
- Minigrep.LinesJoin: the reconstruction is proved only for text without '\r'. With "\r\n" endings the joined lines also lack each dropped '\r'; no lemma states that case.
- Text.ToLower: only maps ASCII letters. Rust's `to_lowercase` is full Unicode.
- Oop.AveragedCollection.UpdateAverage: computes the mean as an exact rational, not as an `f64`. `None` stands for the NaN of an emptied collection.
- RefCell.LimitTracker.SetValue: compares the exact rational `value / max`, not the rounded `f64` quotient. The threshold 0.9 is not exact in `f64`, so the two can disagree once `max` reaches about 3·10^15. Example: max = 9007199254740989 and value = 8106479329266890 give an `f64` quotient that rounds to 0.9, so Rust sends the urgent warning, while the exact quotient is just below 0.9 and the model sends the 75% warning. Below 2^51 every quotient within one rounding step of a threshold is the threshold itself, so the two agree there.
- For `max == 0`, SetValue follows IEEE semantics: 0/0 is NaN and sends nothing, v/0 is infinity and sends the over-quota message.
- The `Messenger` trait is not modelled generically; the tracker holds the mock messenger itself.
- Lifecycle.HashMap.GetDefault: returns the value, not a `&mut V` into the map. The raw-pointer detour is not modelled, only its effect on the map.
- UnsafeRust.SplitAtMut: returns the two halves as values. The mutable views that alias the original slice are not modelled.
- The FFI call `abs` and the unsafe trait of `unsafe_rust.rs` are left out. They are a foreign call and an empty declaration.
- Lifetimes have no run-time meaning and are not modelled. This includes demo_0's `split('.')` used to build an `ImportantExcerpt`.
- Print-only code is left out, since it has nothing to compute:
  - `Screen::run` and `draw`;
  - `Pilot`/`Wizard`/`Human::fly` and `Dog::baby_name`;
  - `try_compare`;
  - `display_array`;
  - demo_4 and demo_5 of `option.rs`;
  - demo_3 of `matches.rs` (its `enumerate` is the one modelled by `AdvancedTrait.Enumerate`);
  - demo_4 of `define.rs`.
- The print and two-second sleep inside the `Cacher` closure are left out; its value is its argument. Closure.GenerateWorkout counts how often the closure runs in a ghost out-parameter.
- The "State quarter from" line printed by `value_in_cents_1` is left out.
- `Point + Point` and `outline_print` in demo_3 of `practice/src/generics_trait.rs` (lines 293-309 and 364-375) are the same code as in `advanced_trait.rs`. They are modelled once, by `AdvancedTrait.PointAdd` and `AdvancedTrait.OutlineLines`.
- Integer overflow panics are preconditions, not modelled panics. This covers `area`, `add`, `add_one`, `plus_one`, `do_twice`, the `x + 1` of the closure from `returns_closure`, `Millimeters + Meters`, `Point + Point`, `COUNTER += inc`, and the `iter().sum()` of `update_average` (every prefix sum of the list must fit in an `i32`).

## Findings

| source | as written | input that shows it | evidently intended | confidence | as-written member | corrected member |
|---|---|---|---|---|---|---|
| practice/src/general_concept/branchs.rs:17-18 | the final `else` prints "the number is divisible by 4, 3, or 2!" | x = 1, which none of 4, 3 and 2 divides | "the number is not divisible by 4, 3, or 2!" | not executed | Branchs.Demo2AsWrittenMisreports | Branchs.Demo2Truthful |
