/** The check-in step of the weekly wellness app (`MentalApp.show_summary` and
    `MentalApp.get_additional_info`): read the seven day fields, collect the
    digit ones as ratings, decide acceptance, save, average and classify.

    What the step does to the outside world (error dialogs, the save to the
    daily log file, the summary pop-up, and the ZeroDivisionError that ends it
    when no rating was collected) is modelled as a trace of events, in order. */
module MentalApp {
  import opened Digits

  // ---------------------------------------------------------------- days

  datatype Day = Monday | Tuesday | Wednesday | Thursday | Friday | Saturday | Sunday
  {
    /** Position of the day in the form, Monday first. */
    function Index(): (i: nat)
      ensures i < |Days| && Days[i] == this
    {
      match this
      case Monday => 0
      case Tuesday => 1
      case Wednesday => 2
      case Thursday => 3
      case Friday => 4
      case Saturday => 5
      case Sunday => 6
    }

    /** The label the form shows and the error message uses. */
    function Name(): string {
      match this
      case Monday => "Monday"
      case Tuesday => "Tuesday"
      case Wednesday => "Wednesday"
      case Thursday => "Thursday"
      case Friday => "Friday"
      case Saturday => "Saturday"
      case Sunday => "Sunday"
    }
  }

  /** The fields of the form, in the order they are built and walked. */
  const Days: seq<Day> := [Monday, Tuesday, Wednesday, Thursday, Friday, Saturday, Sunday]

  /** Each position of the form holds the day whose index it is. */
  lemma DayAt(i: nat)
    requires i < |Days|
    ensures Days[i].Index() == i
  {
  }

  /** Position `i` of the form holds `d` exactly when `d`'s index is `i`. */
  lemma DayAtIff(i: nat, d: Day)
    requires i < |Days|
    ensures Days[i] == d <==> d.Index() == i
  {
    DayAt(i);
  }

  /** The texts of the seven day fields, `texts[i]` belonging to `Days[i]`. */
  predicate IsWeek(texts: seq<string>) {
    |texts| == |Days|
  }

  // ---------------------------------------------------------------- data

  /** One entry `day: value` of the ordered mapping `mood_ratings`. */
  datatype Rating = Rating(day: Day, value: nat)

  /** The band of an average rating; `NoMessage` stands for the empty text. */
  datatype Message = Cautionary | Encouraging | Celebratory | NoMessage

  /** What a check-in does, in the order it happens. An error dialog shows
      `DialogText` of itself; the summary shows the average and
      `InfoText(info)`. */
  datatype Event =
    | NotDigitError(day: Day)
    | RangeError
    | Saved(name: string, ratings: seq<Rating>)
    | SummaryPopup(name: string, ratings: seq<Rating>, average: real, info: Message)
    | DivisionByZero
  {
    predicate IsErrorDialog() {
      NotDigitError? || RangeError?
    }
  }

  const RangeErrorText := "Please enter valid mood ratings between 1 and 5 for each day."

  function NotDigitText(d: Day): string {
    "Please enter a valid integer mood rating for " + d.Name()
  }

  /** The text an error dialog shows. */
  function DialogText(e: Event): string
    requires e.IsErrorDialog()
  {
    if e.RangeError? then RangeErrorText else NotDigitText(e.day)
  }

  // ---------------------------------------------------------------- collection

  /** `mood_ratings` after the loop has visited the first `k` days. */
  function Collected(texts: seq<string>, k: nat): seq<Rating>
    requires IsWeek(texts) && k <= |Days|
  {
    if k == 0 then []
    else
      var c := Collected(texts, k - 1);
      if IsDigitString(texts[k - 1]) then c + [Rating(Days[k - 1], Value(texts[k - 1]))] else c
  }

  /** The days the loop has rejected as non-digit among the first `k`. */
  function Rejected(texts: seq<string>, k: nat): seq<Day>
    requires IsWeek(texts) && k <= |Days|
  {
    if k == 0 then []
    else
      var r := Rejected(texts, k - 1);
      if IsDigitString(texts[k - 1]) then r else r + [Days[k - 1]]
  }

  /** One error dialog per rejected day, in the same order. */
  function NotDigitDialogs(days: seq<Day>): seq<Event> {
    if days == [] then []
    else NotDigitDialogs(days[..|days| - 1]) + [NotDigitError(days[|days| - 1])]
  }

  /** One more rejected day adds its dialog at the end. */
  lemma DialogsAppend(days: seq<Day>, d: Day)
    ensures NotDigitDialogs(days + [d]) == NotDigitDialogs(days) + [NotDigitError(d)]
  {
    assert (days + [d])[..|days|] == days;
  }

  /** The value stored under `d` in an ordered mapping (its last entry for `d`;
      the mappings built here have at most one). */
  function Lookup(c: seq<Rating>, d: Day): Option<nat> {
    if c == [] then None
    else if c[|c| - 1].day == d then Some(c[|c| - 1].value)
    else Lookup(c[..|c| - 1], d)
  }

  /** Keys strictly follow the Monday-to-Sunday order (so none repeats). */
  predicate InDayOrder(c: seq<Rating>) {
    forall i, j :: 0 <= i < j < |c| ==> c[i].day.Index() < c[j].day.Index()
  }

  /** Looking up a mapping with one more entry at the end. */
  lemma LookupAppend(c: seq<Rating>, x: Rating, d: Day)
    ensures Lookup(c + [x], d) == if x.day == d then Some(x.value) else Lookup(c, d)
  {
    assert (c + [x])[..|c|] == c;
  }

  /** Visiting day `k` can only change the entry of that day. */
  lemma LookupStep(texts: seq<string>, k: nat, d: Day)
    requires IsWeek(texts) && k < |Days|
    ensures Lookup(Collected(texts, k + 1), d) ==
      if d.Index() == k && IsDigitString(texts[k]) then Some(Value(texts[k]))
      else Lookup(Collected(texts, k), d)
  {
    DayAtIff(k, d);
    var c := Collected(texts, k);
    if IsDigitString(texts[k]) {
      var x := Rating(Days[k], Value(texts[k]));
      assert Collected(texts, k + 1) == c + [x];
      LookupAppend(c, x, d);
    } else {
      assert Collected(texts, k + 1) == c;
    }
  }

  /** A day's entry is present exactly when its text is a digit string, and then
      holds that string's value. */
  lemma {:induction false} CollectedLookup(texts: seq<string>, k: nat, d: Day)
    requires IsWeek(texts) && k <= |Days|
    ensures Lookup(Collected(texts, k), d) == if d.Index() < k then Parse(texts[d.Index()]) else None
  {
    if k > 0 {
      CollectedLookup(texts, k - 1, d);
      LookupStep(texts, k - 1, d);
      var i := d.Index();
      if i == k - 1 {
        assert Parse(texts[k - 1]) == if IsDigitString(texts[k - 1]) then Some(Value(texts[k - 1])) else None;
      } else {
        assert Lookup(Collected(texts, k), d) == Lookup(Collected(texts, k - 1), d);
      }
    }
  }

  /** Appending a rating whose day comes after every day already present keeps
      the form's order. */
  lemma AppendInOrder(c: seq<Rating>, x: Rating)
    requires InDayOrder(c)
    requires forall i :: 0 <= i < |c| ==> c[i].day.Index() < x.day.Index()
    ensures InDayOrder(c + [x])
  {
    var ck := c + [x];
    assert forall i :: 0 <= i < |c| ==> ck[i] == c[i];
  }

  /** Only visited days are collected, so there are at most as many entries
      as days visited. */
  lemma {:induction false} CollectedBounded(texts: seq<string>, k: nat)
    requires IsWeek(texts) && k <= |Days|
    ensures |Collected(texts, k)| <= k
    ensures forall i :: 0 <= i < |Collected(texts, k)| ==> Collected(texts, k)[i].day.Index() < k
  {
    if k > 0 {
      CollectedBounded(texts, k - 1);
      var c := Collected(texts, k - 1);
      if IsDigitString(texts[k - 1]) {
        DayAt(k - 1);
        var ck := c + [Rating(Days[k - 1], Value(texts[k - 1]))];
        assert Collected(texts, k) == ck;
        assert forall i :: 0 <= i < |c| ==> ck[i] == c[i];
      } else {
        assert Collected(texts, k) == c;
      }
    }
  }

  /** The collected mapping keeps the form's order. */
  lemma {:induction false} CollectedOrdered(texts: seq<string>, k: nat)
    requires IsWeek(texts) && k <= |Days|
    ensures InDayOrder(Collected(texts, k))
  {
    if k > 0 {
      CollectedOrdered(texts, k - 1);
      CollectedBounded(texts, k - 1);
      var c := Collected(texts, k - 1);
      if IsDigitString(texts[k - 1]) {
        DayAt(k - 1);
        var x := Rating(Days[k - 1], Value(texts[k - 1]));
        assert Collected(texts, k) == c + [x];
        AppendInOrder(c, x);
      } else {
        assert Collected(texts, k) == c;
      }
    }
  }

  /** A visited day is rejected exactly when it has no entry. */
  lemma CollectedOrRejected(texts: seq<string>, k: nat, d: Day)
    requires IsWeek(texts) && k <= |Days| && d.Index() < k
    ensures d in Rejected(texts, k) <==> Lookup(Collected(texts, k), d) == None
  {
    RejectedMember(texts, k, d);
    CollectedLookup(texts, k, d);
  }

  /** Every visited day is either collected or rejected, never both, never
      neither; so the two counts add up to the days visited. */
  lemma {:induction false} CollectedRejectedSplit(texts: seq<string>, k: nat)
    requires IsWeek(texts) && k <= |Days|
    ensures forall d: Day :: d.Index() < k ==> (d in Rejected(texts, k) <==> Lookup(Collected(texts, k), d) == None)
    ensures |Collected(texts, k)| + |Rejected(texts, k)| == k
  {
    forall d: Day | d.Index() < k
      ensures d in Rejected(texts, k) <==> Lookup(Collected(texts, k), d) == None
    {
      CollectedOrRejected(texts, k, d);
    }
    if k > 0 {
      CollectedRejectedSplit(texts, k - 1);
    }
  }

  /** A visited day is rejected exactly when its text is not a digit string. */
  lemma {:induction false} RejectedMember(texts: seq<string>, k: nat, d: Day)
    requires IsWeek(texts) && k <= |Days|
    ensures d in Rejected(texts, k) <==> d.Index() < k && !IsDigitString(texts[d.Index()])
  {
    if k > 0 {
      RejectedMember(texts, k - 1, d);
      DayAtIff(k - 1, d);
      var r := Rejected(texts, k - 1);
      if IsDigitString(texts[k - 1]) {
        assert Rejected(texts, k) == r;
      } else {
        assert Rejected(texts, k) == r + [Days[k - 1]];
      }
    }
  }

  /** The rejected days are visited days, in strictly increasing form order. */
  lemma {:induction false} RejectedOrdered(texts: seq<string>, k: nat)
    requires IsWeek(texts) && k <= |Days|
    ensures forall i, j :: 0 <= i < j < |Rejected(texts, k)| ==>
      Rejected(texts, k)[i].Index() < Rejected(texts, k)[j].Index()
    ensures forall i :: 0 <= i < |Rejected(texts, k)| ==> Rejected(texts, k)[i].Index() < k
  {
    if k > 0 {
      RejectedOrdered(texts, k - 1);
      var r := Rejected(texts, k - 1);
      if !IsDigitString(texts[k - 1]) {
        DayAt(k - 1);
        var rk := r + [Days[k - 1]];
        assert Rejected(texts, k) == rk;
        assert forall i :: 0 <= i < |r| ==> rk[i] == r[i];
      }
    }
  }

  /** Appending `x` adds one occurrence of `x` and of nothing else. */
  lemma CountAppend<T>(s: seq<T>, x: T, y: T)
    ensures multiset(s + [x])[y] == multiset(s)[y] + if x == y then 1 else 0
  {
    assert multiset(s + [x]) == multiset(s) + multiset{x};
  }

  /** In a sequence without repeats, a value occurs once or not at all. */
  lemma {:induction false} CountDistinct<T>(s: seq<T>, y: T)
    requires forall i, j :: 0 <= i < j < |s| ==> s[i] != s[j]
    ensures multiset(s)[y] == if y in s then 1 else 0
  {
    if s != [] {
      var init, x := s[..|s| - 1], s[|s| - 1];
      assert s == init + [x];
      assert forall i :: 0 <= i < |init| ==> init[i] == s[i];
      CountDistinct(init, y);
      CountAppend(init, x, y);
    }
  }

  /** A day is rejected once if its text is not a digit string, and never
      otherwise. */
  lemma RejectedCount(texts: seq<string>, k: nat, d: Day)
    requires IsWeek(texts) && k <= |Days|
    ensures multiset(Rejected(texts, k))[d] == if d.Index() < k && !IsDigitString(texts[d.Index()]) then 1 else 0
  {
    RejectedMember(texts, k, d);
    RejectedOrdered(texts, k);
    var r := Rejected(texts, k);
    assert forall i, j :: 0 <= i < j < |r| ==> r[i] != r[j];
    CountDistinct(r, d);
  }

  /** There are as many dialogs naming `d` as there are entries `d`. */
  lemma {:induction false} DialogCount(days: seq<Day>, d: Day)
    ensures multiset(NotDigitDialogs(days))[NotDigitError(d)] == multiset(days)[d]
  {
    if days != [] {
      var init := days[..|days| - 1];
      DialogCount(init, d);
      assert days == init + [days[|days| - 1]];
    }
  }

  /** The dialogs name the rejected days one for one and in order. */
  lemma {:induction false} NotDigitDialogsNameDays(days: seq<Day>)
    ensures |NotDigitDialogs(days)| == |days|
    ensures forall i :: 0 <= i < |days| ==> NotDigitDialogs(days)[i] == NotDigitError(days[i])
  {
    if days != [] {
      NotDigitDialogsNameDays(days[..|days| - 1]);
    }
  }

  // ---------------------------------------------------------------- acceptance

  predicate InRange(v: int) {
    1 <= v <= 5
  }

  /** `all(1 <= rating <= 5 for rating in mood_ratings.values())`. */
  predicate Accepted(c: seq<Rating>) {
    forall i :: 0 <= i < |c| ==> InRange(c[i].value)
  }

  /** Acceptance looks only at the days that were collected: it holds exactly
      when every digit field reads as a value in [1,5]; non-digit fields do not
      take part. */
  lemma {:induction false} AcceptedIff(texts: seq<string>, k: nat)
    requires IsWeek(texts) && k <= |Days|
    ensures Accepted(Collected(texts, k)) <==>
      forall i :: 0 <= i < k && IsDigitString(texts[i]) ==> InRange(Value(texts[i]))
  {
    if k > 0 {
      AcceptedIff(texts, k - 1);
      var c := Collected(texts, k - 1);
      if IsDigitString(texts[k - 1]) {
        var c' := c + [Rating(Days[k - 1], Value(texts[k - 1]))];
        assert c'[|c|].value == Value(texts[k - 1]);
        assert forall i :: 0 <= i < |c| ==> c'[i] == c[i];
      }
    }
  }

  // ---------------------------------------------------------------- average

  /** `sum(mood_ratings.values())`. */
  function Sum(c: seq<Rating>): int {
    if c == [] then 0 else c[0].value + Sum(c[1..])
  }

  /** `sum / len`; the division needs at least one rating. */
  function Average(c: seq<Rating>): real
    requires |c| > 0
  {
    Sum(c) as real / |c| as real
  }

  /** Ratings in [1,5] sum to between one and five times their count. */
  lemma {:induction false} SumBounds(c: seq<Rating>)
    requires Accepted(c)
    ensures |c| <= Sum(c) <= 5 * |c|
  {
    if c != [] {
      assert InRange(c[0].value);
      assert forall i :: 0 <= i < |c| - 1 ==> c[1..][i] == c[i + 1];
      SumBounds(c[1..]);
    }
  }

  /** For a positive count, comparing `sum / count` with a whole number is
      comparing `sum` with that many times the count. */
  lemma DivCompare(sum: int, count: int, b: int)
    requires count > 0
    ensures sum as real / count as real < b as real <==> sum < b * count
    ensures sum as real / count as real == b as real <==> sum == b * count
  {
    var q := sum as real / count as real;
    assert q * count as real == sum as real;
    if q < b as real {
      assert q * count as real < b as real * count as real;
    }
    if q > b as real {
      assert q * count as real > b as real * count as real;
    }
  }

  /** The average of an accepted, non-empty mapping lies in [1,5]. */
  lemma AverageInRange(c: seq<Rating>)
    requires Accepted(c) && |c| > 0
    ensures 1.0 <= Average(c) <= 5.0
  {
    SumBounds(c);
    DivCompare(Sum(c), |c|, 1);
    DivCompare(Sum(c), |c|, 5);
  }

  // ---------------------------------------------------------------- classification

  /** `get_additional_info(average)`: the band whose text is shown. */
  function Classify(average: real): (m: Message)
    ensures m == NoMessage <==> average < 1.0 || 5.0 < average
  {
    if 1.0 <= average < 3.0 then Cautionary
    else if 3.0 <= average < 5.0 then Encouraging
    else if average == 5.0 then Celebratory
    else NoMessage
  }

  /** The text shown under the average: empty exactly for `NoMessage`. */
  function InfoText(m: Message): (t: string)
    ensures |t| == 0 <==> m == NoMessage
  {
    match m
    case Cautionary => "Your mood indicates it's a challenging time for you. Reach out for support if needed."
    case Encouraging => "You're doing okay. Keep up the good work!"
    case Celebratory => "Fantastic! Your mood suggests you're having a great week!"
    case NoMessage => ""
  }

  /** The bands, stated on the integer sum and count behind an average. */
  lemma ClassifyBySum(sum: int, count: int)
    requires count > 0
    ensures Classify(sum as real / count as real) == Cautionary <==> count <= sum < 3 * count
    ensures Classify(sum as real / count as real) == Encouraging <==> 3 * count <= sum < 5 * count
    ensures Classify(sum as real / count as real) == Celebratory <==> sum == 5 * count
    ensures Classify(sum as real / count as real) == NoMessage <==> sum < count || 5 * count < sum
  {
    DivCompare(sum, count, 1);
    DivCompare(sum, count, 3);
    DivCompare(sum, count, 5);
  }

  /** The empty-text branch is never taken for an accepted, non-empty mapping. */
  lemma AcceptedHasMessage(c: seq<Rating>)
    requires Accepted(c) && |c| > 0
    ensures Classify(Average(c)) != NoMessage
  {
    AverageInRange(c);
  }

  // ---------------------------------------------------------------- the check-in

  /** What follows the collection loop, when the decision is `accept`: save,
      then average (failing on an empty mapping), then show the summary; or
      show the range error. */
  function AfterCollection(name: string, c: seq<Rating>, accept: bool): seq<Event> {
    if !accept then [RangeError]
    else if |c| == 0 then [Saved(name, c), DivisionByZero]
    else [Saved(name, c), SummaryPopup(name, c, Average(c), Classify(Average(c)))]
  }

  /** Everything one press of the check-in button does. */
  function Trace(name: string, texts: seq<string>): seq<Event>
    requires IsWeek(texts)
  {
    var c := Collected(texts, |texts|);
    NotDigitDialogs(Rejected(texts, |texts|)) + AfterCollection(name, c, Accepted(c))
  }

  /** `show_summary`: walk the day fields in order, collect the digit ones and
      report each other one, then decide, save, average and classify. */
  method ShowSummary(name: string, texts: seq<string>) returns (events: seq<Event>)
    requires IsWeek(texts)
    ensures events == Trace(name, texts)
  {
    var moodRatings: seq<Rating> := [];
    events := [];
    for i := 0 to |Days|
      invariant moodRatings == Collected(texts, i)
      invariant events == NotDigitDialogs(Rejected(texts, i))
    {
      var moodRating := texts[i];
      if IsDigitString(moodRating) {
        moodRatings := moodRatings + [Rating(Days[i], Value(moodRating))];
      } else {
        ghost var before := Rejected(texts, i);
        assert (before + [Days[i]])[..|before|] == before;
        events := events + [NotDigitError(Days[i])];
      }
    }
    if Accepted(moodRatings) {
      events := events + [Saved(name, moodRatings)];
      if |moodRatings| == 0 {
        events := events + [DivisionByZero];
      } else {
        var averageRating := Average(moodRatings);
        var additionalInfo := Classify(averageRating);
        events := events + [SummaryPopup(name, moodRatings, averageRating, additionalInfo)];
      }
    } else {
      events := events + [RangeError];
    }
  }

  // ---------------------------------------------------------------- properties of a check-in

  /** Collecting nothing: every field was rejected as non-digit. */
  lemma {:induction false} NothingCollected(texts: seq<string>, k: nat)
    requires IsWeek(texts) && k <= |Days|
    ensures Collected(texts, k) == [] <==> forall i :: 0 <= i < k ==> !IsDigitString(texts[i])
  {
    if k > 0 {
      NothingCollected(texts, k - 1);
    }
  }

  /** A list of dialogs names `d` exactly when `d` is among its days, and holds
      nothing but per-day dialogs. */
  lemma {:induction false} DialogNamesDay(days: seq<Day>, d: Day)
    ensures NotDigitError(d) in NotDigitDialogs(days) <==> d in days
    ensures forall e :: e in NotDigitDialogs(days) ==> e.NotDigitError?
  {
    if days != [] {
      var init := days[..|days| - 1];
      DialogNamesDay(init, d);
      assert days == init + [days[|days| - 1]];
    }
  }

  /** What the decision step does: it starts with the save when it accepts and
      with the range error otherwise; every event but the last is the save; the
      division by zero happens exactly when an empty mapping is accepted; a
      summary holds the average of a non-empty mapping and its band. */
  lemma DecisionEvents(name: string, c: seq<Rating>, accept: bool)
    ensures |AfterCollection(name, c, accept)| > 0
    ensures AfterCollection(name, c, accept)[0] == if accept then Saved(name, c) else RangeError
    ensures forall j :: 0 <= j < |AfterCollection(name, c, accept)| - 1 ==>
      AfterCollection(name, c, accept)[j] == Saved(name, c)
    ensures forall e :: e in AfterCollection(name, c, accept) && e.Saved? ==> e == Saved(name, c)
    ensures forall e :: e in AfterCollection(name, c, accept) ==> (e.IsErrorDialog() <==> !accept)
    ensures DivisionByZero in AfterCollection(name, c, accept) <==> accept && |c| == 0
    ensures accept && |c| > 0 ==>
      AfterCollection(name, c, accept) == [Saved(name, c), SummaryPopup(name, c, Average(c), Classify(Average(c)))]
    ensures forall e :: e in AfterCollection(name, c, accept) && e.SummaryPopup? ==>
      |c| > 0 && e.average == Average(c) && e.info == Classify(e.average)
  {
  }

  /** The dialog naming day `d` is shown exactly when `d`'s text is not a digit
      string; the loop goes on to the remaining days either way. */
  lemma NotDigitDialogShown(name: string, texts: seq<string>, d: Day)
    requires IsWeek(texts)
    ensures NotDigitError(d) in Trace(name, texts) <==> !IsDigitString(texts[d.Index()])
    ensures multiset(Trace(name, texts))[NotDigitError(d)] == if IsDigitString(texts[d.Index()]) then 0 else 1
  {
    var r := Rejected(texts, |texts|);
    var c := Collected(texts, |texts|);
    RejectedMember(texts, |texts|, d);
    DialogNamesDay(r, d);
    DecisionEvents(name, c, Accepted(c));
    RejectedCount(texts, |texts|, d);
    DialogCount(r, d);
    assert NotDigitError(d) !in AfterCollection(name, c, Accepted(c));
  }

  /** The range error dialog shows a text no per-day dialog shows. */
  lemma RangeTextDiffers(d: Day)
    ensures DialogText(RangeError) != DialogText(NotDigitError(d))
  {
    assert |RangeErrorText| == 61;
  }

  /** Per-day dialogs for different days show different texts. */
  lemma NameDistinguishes(d: Day, e: Day)
    requires DialogText(NotDigitError(d)) == DialogText(NotDigitError(e))
    ensures d == e
  {
    var n := |"Please enter a valid integer mood rating for "|;
    assert NotDigitText(d)[n..] == d.Name();
    assert NotDigitText(e)[n..] == e.Name();
  }

  /** Two error dialogs showing the same text are the same dialog, so the user
      can tell from the text alone which day, or the range, is at fault. */
  lemma DialogTextIdentifies(e1: Event, e2: Event)
    requires e1.IsErrorDialog() && e2.IsErrorDialog()
    requires DialogText(e1) == DialogText(e2)
    ensures e1 == e2
  {
    if e1.NotDigitError? && e2.NotDigitError? {
      NameDistinguishes(e1.day, e2.day);
    } else if e1.NotDigitError? {
      RangeTextDiffers(e1.day);
    } else if e2.NotDigitError? {
      RangeTextDiffers(e2.day);
    }
  }

  /** The check-in is saved, with the collected mapping, exactly when
      every digit field reads as a value in [1,5], whatever the other fields
      hold. */
  lemma SavedIffAccepted(name: string, texts: seq<string>)
    requires IsWeek(texts)
    ensures Saved(name, Collected(texts, |texts|)) in Trace(name, texts) <==>
      forall i :: 0 <= i < |Days| && IsDigitString(texts[i]) ==> InRange(Value(texts[i]))
    ensures forall e :: e in Trace(name, texts) && e.Saved? ==> e == Saved(name, Collected(texts, |texts|))
  {
    var r := Rejected(texts, |texts|);
    var c := Collected(texts, |texts|);
    AcceptedIff(texts, |texts|);
    DialogNamesDay(r, Monday);
    DecisionEvents(name, c, Accepted(c));
  }

  /** A press saves at most once. */
  lemma SavedOnce(name: string, texts: seq<string>)
    requires IsWeek(texts)
    ensures multiset(Trace(name, texts))[Saved(name, Collected(texts, |texts|))] <= 1
  {
    var r := Rejected(texts, |texts|);
    var c := Collected(texts, |texts|);
    DialogNamesDay(r, Monday);
    assert Saved(name, c) !in NotDigitDialogs(r);
    assert multiset(AfterCollection(name, c, Accepted(c)))[Saved(name, c)] <= 1;
  }

  /** A digit field outside [1,5] ("0", "7") rejects the whole check-in with
      the range error: nothing is saved, averaged or shown besides errors. */
  lemma OutOfRangeRejects(name: string, texts: seq<string>, i: nat)
    requires IsWeek(texts) && i < |Days|
    requires IsDigitString(texts[i]) && !InRange(Value(texts[i]))
    ensures Trace(name, texts)[|Trace(name, texts)| - 1] == RangeError
    ensures forall e :: e in Trace(name, texts) ==> e.IsErrorDialog()
  {
    var r := Rejected(texts, |texts|);
    var c := Collected(texts, |texts|);
    AcceptedIff(texts, |texts|);
    DialogNamesDay(r, Monday);
    DecisionEvents(name, c, Accepted(c));
  }

  /** The save always comes first: whatever consumes the average (the division
      by zero or the summary) directly follows the save of the same mapping. */
  lemma SaveBeforeAverage(name: string, texts: seq<string>, j: nat)
    requires IsWeek(texts) && j < |Trace(name, texts)|
    requires Trace(name, texts)[j] == DivisionByZero || Trace(name, texts)[j].SummaryPopup?
    ensures j > 0 && Trace(name, texts)[j - 1] == Saved(name, Collected(texts, |texts|))
  {
    var r := Rejected(texts, |texts|);
    var c := Collected(texts, |texts|);
    var tail := AfterCollection(name, c, Accepted(c));
    DialogNamesDay(r, Monday);
    DecisionEvents(name, c, Accepted(c));
    var trace := Trace(name, texts);
    var dialogs := NotDigitDialogs(r);
    assert trace == dialogs + tail;
    forall i | 0 <= i < |dialogs|
      ensures trace[i].NotDigitError?
    {
      assert trace[i] == dialogs[i] && dialogs[i] in dialogs;
    }
    var k := j - |dialogs|;
    assert trace[j] == tail[k];
    assert tail[k - 1] == Saved(name, c);
  }

  /** The average divides by zero exactly when no field holds a digit string:
      then the empty mapping passes the range check vacuously and is saved
      right before the division. */
  lemma DivisionByZeroIff(name: string, texts: seq<string>)
    requires IsWeek(texts)
    ensures DivisionByZero in Trace(name, texts) <==> forall i :: 0 <= i < |Days| ==> !IsDigitString(texts[i])
  {
    var r := Rejected(texts, |texts|);
    var c := Collected(texts, |texts|);
    NothingCollected(texts, |texts|);
    DialogNamesDay(r, Monday);
    DecisionEvents(name, c, Accepted(c));
  }

  /** The summary pop-up is shown exactly when every digit field is in [1,5]
      and at least one field is a digit string; it is then the last event and
      shows the average of the collected mapping. */
  lemma SummaryShownIff(name: string, texts: seq<string>)
    requires IsWeek(texts)
    ensures (exists e :: e in Trace(name, texts) && e.SummaryPopup?) <==>
      (forall i :: 0 <= i < |Days| && IsDigitString(texts[i]) ==> InRange(Value(texts[i]))) &&
      (exists i :: 0 <= i < |Days| && IsDigitString(texts[i]))
    ensures forall e :: e in Trace(name, texts) && e.SummaryPopup? ==>
      e == Trace(name, texts)[|Trace(name, texts)| - 1] && e.average == Average(Collected(texts, |texts|))
  {
    var r := Rejected(texts, |texts|);
    var c := Collected(texts, |texts|);
    var tail := AfterCollection(name, c, Accepted(c));
    AcceptedIff(texts, |texts|);
    NothingCollected(texts, |texts|);
    DialogNamesDay(r, Monday);
    DecisionEvents(name, c, Accepted(c));
    assert Trace(name, texts) == NotDigitDialogs(r) + tail;
    if Accepted(c) && |c| > 0 {
      assert tail[1] in Trace(name, texts);
    }
    forall e | e in Trace(name, texts) && e.SummaryPopup?
      ensures e == Trace(name, texts)[|Trace(name, texts)| - 1] && e.average == Average(c)
    {
      assert e in tail;
    }
  }

  /** A shown summary carries an average in [1,5] and a band with a message. */
  lemma SummaryHasMessage(name: string, texts: seq<string>)
    requires IsWeek(texts)
    ensures forall e :: e in Trace(name, texts) && e.SummaryPopup? ==>
      1.0 <= e.average <= 5.0 && e.info == Classify(e.average) && e.info != NoMessage && |InfoText(e.info)| > 0
  {
    var r := Rejected(texts, |texts|);
    var c := Collected(texts, |texts|);
    var tail := AfterCollection(name, c, Accepted(c));
    DialogNamesDay(r, Monday);
    DecisionEvents(name, c, Accepted(c));
    forall e | e in Trace(name, texts) && e.SummaryPopup?
      ensures 1.0 <= e.average <= 5.0 && e.info == Classify(e.average) && e.info != NoMessage && |InfoText(e.info)| > 0
    {
      assert e in tail;
      AcceptedHasMessage(c);
      AverageInRange(c);
    }
  }

  // ---------------------------------------------------------------- worked cases

  /** Visiting a field that is not a digit string: nothing is collected and the
      dialog naming the day is added. */
  lemma VisitNonDigit(texts: seq<string>, k: nat)
    requires IsWeek(texts) && k < |Days| && !IsDigitString(texts[k])
    ensures Collected(texts, k + 1) == Collected(texts, k)
    ensures Rejected(texts, k + 1) == Rejected(texts, k) + [Days[k]]
    ensures NotDigitDialogs(Rejected(texts, k + 1)) == NotDigitDialogs(Rejected(texts, k)) + [NotDigitError(Days[k])]
  {
    DialogsAppend(Rejected(texts, k), Days[k]);
  }

  /** The loop only ever appends: what was collected after `j` days is still
      the start of what is collected after `k`. */
  lemma {:induction false} CollectedGrows(texts: seq<string>, j: nat, k: nat)
    requires IsWeek(texts) && j <= k <= |Days|
    ensures |Collected(texts, j)| <= |Collected(texts, k)|
    ensures forall i :: 0 <= i < |Collected(texts, j)| ==> Collected(texts, k)[i] == Collected(texts, j)[i]
  {
    if j < k {
      CollectedGrows(texts, j, k - 1);
      var c := Collected(texts, k - 1);
      if IsDigitString(texts[k - 1]) {
        var x := Rating(Days[k - 1], Value(texts[k - 1]));
        assert Collected(texts, k) == c + [x];
        assert forall i :: 0 <= i < |c| ==> (c + [x])[i] == c[i];
      }
    }
  }

  /** A run of digit fields, from day `j` up to day `k`, adds one rating per
      day, each at the next position, and rejects nothing. */
  lemma {:induction false} CollectedDigitRun(texts: seq<string>, j: nat, k: nat)
    requires IsWeek(texts) && j <= k <= |Days|
    requires forall i :: j <= i < k ==> IsDigitString(texts[i])
    ensures |Collected(texts, k)| == |Collected(texts, j)| + (k - j)
    ensures forall i :: j <= i < k ==>
      IsDigitString(texts[i]) && Collected(texts, k)[|Collected(texts, j)| + (i - j)] == Rating(Days[i], Value(texts[i]))
    ensures Rejected(texts, k) == Rejected(texts, j)
  {
    if j < k {
      CollectedDigitRun(texts, j, k - 1);
      var n := |Collected(texts, j)|;
      var c := Collected(texts, k - 1);
      var x := Rating(Days[k - 1], Value(texts[k - 1]));
      var ck := c + [x];
      assert Collected(texts, k) == ck;
      forall i | j <= i < k
        ensures IsDigitString(texts[i]) && Collected(texts, k)[|Collected(texts, j)| + (i - j)] == Rating(Days[i], Value(texts[i]))
      {
        if i < k - 1 {
          assert ck[n + (i - j)] == c[n + (i - j)];
        }
      }
    }
  }

  /** The press for a week whose loop collects `c`, accepted and non-empty, and
      rejects the days `r`: their dialogs, the save, then the summary. */
  lemma AcceptedTrace(name: string, texts: seq<string>, c: seq<Rating>, r: seq<Day>)
    requires IsWeek(texts) && Collected(texts, |texts|) == c && Rejected(texts, |texts|) == r
    requires Accepted(c) && |c| > 0
    ensures Trace(name, texts) == NotDigitDialogs(r) + [Saved(name, c), SummaryPopup(name, c, Average(c), Classify(Average(c)))]
  {
  }

  /** The week 3,4,5,2,3,4,5 is collected whole. */
  lemma FullWeekCollected(texts: seq<string>)
    requires texts == ["3", "4", "5", "2", "3", "4", "5"]
    ensures Collected(texts, 7) == [Rating(Monday, 3), Rating(Tuesday, 4), Rating(Wednesday, 5), Rating(Thursday, 2), Rating(Friday, 3), Rating(Saturday, 4), Rating(Sunday, 5)]
    ensures Rejected(texts, 7) == []
  {
    SingleDigit(texts[0]);
    SingleDigit(texts[1]);
    SingleDigit(texts[2]);
    SingleDigit(texts[3]);
    SingleDigit(texts[4]);
    SingleDigit(texts[5]);
    SingleDigit(texts[6]);
    CollectedDigitRun(texts, 0, 7);
  }

  /** A full week in range: saved, averaged to 26/7, encouraging message. */
  lemma FullWeekEncouraging(name: string, texts: seq<string>)
    requires texts == ["3", "4", "5", "2", "3", "4", "5"]
    ensures Trace(name, texts) ==
      var c := [Rating(Monday, 3), Rating(Tuesday, 4), Rating(Wednesday, 5), Rating(Thursday, 2),
                Rating(Friday, 3), Rating(Saturday, 4), Rating(Sunday, 5)];
      [Saved(name, c), SummaryPopup(name, c, 26.0 / 7.0, Encouraging)]
  {
    FullWeekCollected(texts);
    var c := [Rating(Monday, 3), Rating(Tuesday, 4), Rating(Wednesday, 5), Rating(Thursday, 2), Rating(Friday, 3), Rating(Saturday, 4), Rating(Sunday, 5)];
    assert Accepted(c);
    AcceptedTrace(name, texts, c, []);
    assert Sum(c) == 26;
    assert Average(c) == 26.0 / 7.0;
    assert Classify(26.0 / 7.0) == Encouraging;
  }

  /** Ratings that all hold the same value sum to that value times their count. */
  lemma {:induction false} SumConstant(c: seq<Rating>, v: nat)
    requires forall i :: 0 <= i < |c| ==> c[i].value == v
    ensures Sum(c) == v * |c|
  {
    if c != [] {
      assert forall i :: 0 <= i < |c| - 1 ==> c[1..][i] == c[i + 1];
      SumConstant(c[1..], v);
    }
  }

  /** A week of fives is collected whole. */
  lemma AllFivesCollected(texts: seq<string>)
    requires texts == ["5", "5", "5", "5", "5", "5", "5"]
    ensures Collected(texts, 7) == [Rating(Monday, 5), Rating(Tuesday, 5), Rating(Wednesday, 5), Rating(Thursday, 5), Rating(Friday, 5), Rating(Saturday, 5), Rating(Sunday, 5)]
    ensures Rejected(texts, 7) == []
  {
    SingleDigit(texts[0]);
    SingleDigit(texts[1]);
    SingleDigit(texts[2]);
    SingleDigit(texts[3]);
    SingleDigit(texts[4]);
    SingleDigit(texts[5]);
    SingleDigit(texts[6]);
    CollectedDigitRun(texts, 0, 7);
  }

  /** Seven fives: saved, averaged to exactly 5, celebratory message. */
  lemma AllFivesCelebratory(name: string, texts: seq<string>)
    requires texts == ["5", "5", "5", "5", "5", "5", "5"]
    ensures Trace(name, texts) ==
      var c := [Rating(Monday, 5), Rating(Tuesday, 5), Rating(Wednesday, 5), Rating(Thursday, 5),
                Rating(Friday, 5), Rating(Saturday, 5), Rating(Sunday, 5)];
      [Saved(name, c), SummaryPopup(name, c, 5.0, Celebratory)]
  {
    AllFivesCollected(texts);
    var c := [Rating(Monday, 5), Rating(Tuesday, 5), Rating(Wednesday, 5), Rating(Thursday, 5), Rating(Friday, 5), Rating(Saturday, 5), Rating(Sunday, 5)];
    assert Accepted(c);
    AcceptedTrace(name, texts, c, []);
    forall i | 0 <= i < |c|
      ensures c[i].value == 5
    {
      assert i == 0 || i == 1 || i == 2 || i == 3 || i == 4 || i == 5 || i == 6;
    }
    SumConstant(c, 5);
    assert |c| == 7 && Sum(c) == 35;
    assert Average(c) == 5.0;
    assert Classify(5.0) == Celebratory;
  }

  /** A Tuesday of "abc" is rejected and the other six days are collected. */
  lemma NonDigitTuesdayCollected(texts: seq<string>)
    requires texts == ["3", "abc", "5", "2", "3", "4", "5"]
    ensures Collected(texts, 7) == [Rating(Monday, 3), Rating(Wednesday, 5), Rating(Thursday, 2), Rating(Friday, 3), Rating(Saturday, 4), Rating(Sunday, 5)]
    ensures Rejected(texts, 7) == [Tuesday]
  {
    SingleDigit(texts[0]);
    SingleDigit(texts[2]);
    SingleDigit(texts[3]);
    SingleDigit(texts[4]);
    SingleDigit(texts[5]);
    SingleDigit(texts[6]);
    assert !IsDigit(texts[1][0]);
    assert Collected(texts, 1) == [Rating(Monday, 3)];
    assert Collected(texts, 2) == Collected(texts, 1);
    assert Collected(texts, 3) == Collected(texts, 2) + [Rating(Wednesday, 5)];
    assert Collected(texts, 4) == Collected(texts, 3) + [Rating(Thursday, 2)];
    assert Collected(texts, 5) == Collected(texts, 4) + [Rating(Friday, 3)];
    assert Collected(texts, 6) == Collected(texts, 5) + [Rating(Saturday, 4)];
    assert Collected(texts, 7) == Collected(texts, 6) + [Rating(Sunday, 5)];
    assert Rejected(texts, 1) == [];
    assert Rejected(texts, 2) == [Tuesday];
    assert Rejected(texts, 3) == Rejected(texts, 2);
    assert Rejected(texts, 4) == Rejected(texts, 3);
    assert Rejected(texts, 5) == Rejected(texts, 4);
    assert Rejected(texts, 6) == Rejected(texts, 5);
    assert Rejected(texts, 7) == Rejected(texts, 6);
  }

  /** A non-digit Tuesday is reported, and the other six days are still saved
      and summarised. */
  lemma NonDigitTuesdayStillSaved(name: string, texts: seq<string>)
    requires texts == ["3", "abc", "5", "2", "3", "4", "5"]
    ensures Trace(name, texts) ==
      var c := [Rating(Monday, 3), Rating(Wednesday, 5), Rating(Thursday, 2),
                Rating(Friday, 3), Rating(Saturday, 4), Rating(Sunday, 5)];
      [NotDigitError(Tuesday), Saved(name, c),
       SummaryPopup(name, c, 22.0 / 6.0, Encouraging)]
  {
    NonDigitTuesdayCollected(texts);
    var c := [Rating(Monday, 3), Rating(Wednesday, 5), Rating(Thursday, 2), Rating(Friday, 3), Rating(Saturday, 4), Rating(Sunday, 5)];
    assert Accepted(c);
    AcceptedTrace(name, texts, c, [Tuesday]);
    DialogsAppend([], Tuesday);
    assert [] + [Tuesday] == [Tuesday];
    assert NotDigitDialogs([Tuesday]) == [NotDigitError(Tuesday)];
    assert Sum(c) == 22;
    assert Average(c) == 22.0 / 6.0;
    assert Classify(22.0 / 6.0) == Encouraging;
  }

  /** A Wednesday of "7" is collected like any other digit. */
  lemma OutOfRangeWednesdayCollected(texts: seq<string>)
    requires texts == ["3", "4", "7", "2", "3", "4", "5"]
    ensures Collected(texts, 7) == [Rating(Monday, 3), Rating(Tuesday, 4), Rating(Wednesday, 7), Rating(Thursday, 2), Rating(Friday, 3), Rating(Saturday, 4), Rating(Sunday, 5)]
    ensures Rejected(texts, 7) == []
  {
    SingleDigit(texts[0]);
    SingleDigit(texts[1]);
    SingleDigit(texts[2]);
    SingleDigit(texts[3]);
    SingleDigit(texts[4]);
    SingleDigit(texts[5]);
    SingleDigit(texts[6]);
    CollectedDigitRun(texts, 0, 7);
  }

  /** A Wednesday of "7" turns the whole week down with the range error alone. */
  lemma OutOfRangeWednesday(name: string, texts: seq<string>)
    requires texts == ["3", "4", "7", "2", "3", "4", "5"]
    ensures Trace(name, texts) == [RangeError]
  {
    OutOfRangeWednesdayCollected(texts);
    var c := [Rating(Monday, 3), Rating(Tuesday, 4), Rating(Wednesday, 7), Rating(Thursday, 2), Rating(Friday, 3), Rating(Saturday, 4), Rating(Sunday, 5)];
    assert !InRange(c[2].value);
  }

  /** With no digit string at all, every visited day is rejected in order. */
  lemma {:induction false} AllRejected(texts: seq<string>, k: nat)
    requires IsWeek(texts) && k <= |Days|
    requires forall i :: 0 <= i < |texts| ==> !IsDigitString(texts[i])
    ensures Rejected(texts, k) == Days[..k]
  {
    if k > 0 {
      AllRejected(texts, k - 1);
      assert Days[..k] == Days[..k - 1] + [Days[k - 1]];
    }
  }

  /** A week without a single digit string (seven empty fields, say): one
      dialog per day, then the empty mapping is saved, then the average
      divides by zero. */
  lemma NoDigitsDividesByZero(name: string, texts: seq<string>)
    requires IsWeek(texts)
    requires forall i :: 0 <= i < |texts| ==> !IsDigitString(texts[i])
    ensures Trace(name, texts) == NotDigitDialogs(Days) + [Saved(name, []), DivisionByZero]
  {
    NothingCollected(texts, |Days|);
    AllRejected(texts, |Days|);
    assert Days[..|Days|] == Days;
  }

  /** Seven empty fields pass the range check and end in the division by zero. */
  lemma AllBlankDividesByZero(name: string, texts: seq<string>)
    requires texts == ["", "", "", "", "", "", ""]
    ensures Trace(name, texts) == NotDigitDialogs(Days) + [Saved(name, []), DivisionByZero]
  {
    NoDigitsDividesByZero(name, texts);
  }

  // ---------------------------------------------------------------- corrected acceptance

  /** The check-in with the acceptance the range error's wording asks for:
      every one of the seven days collected, and all in [1,5]. */
  function IntendedTrace(name: string, texts: seq<string>): seq<Event>
    requires IsWeek(texts)
  {
    var c := Collected(texts, |texts|);
    NotDigitDialogs(Rejected(texts, |texts|)) + AfterCollection(name, c, |c| == |Days| && Accepted(c))
  }

  /** The corrected rule accepts exactly the weeks whose seven fields are all
      digit strings reading as values in [1,5]. */
  lemma IntendedAcceptIff(texts: seq<string>)
    requires IsWeek(texts)
    ensures (|Collected(texts, |texts|)| == |Days| && Accepted(Collected(texts, |texts|))) <==>
      forall i :: 0 <= i < |Days| ==> IsDigitString(texts[i]) && InRange(Value(texts[i]))
  {
    AcceptedIff(texts, |texts|);
    CollectedRejectedSplit(texts, |texts|);
    NothingRejected(texts, |texts|);
  }

  /** With the corrected rule a check-in is saved exactly when all seven fields
      are digit strings reading as values in [1,5]. */
  lemma IntendedSavesOnlyCompleteWeeks(name: string, texts: seq<string>)
    requires IsWeek(texts)
    ensures (exists e :: e in IntendedTrace(name, texts) && e.Saved?) <==>
      forall i :: 0 <= i < |Days| ==> IsDigitString(texts[i]) && InRange(Value(texts[i]))
  {
    var r := Rejected(texts, |texts|);
    var c := Collected(texts, |texts|);
    var accept := |c| == |Days| && Accepted(c);
    var tail := AfterCollection(name, c, accept);
    IntendedAcceptIff(texts);
    DialogNamesDay(r, Monday);
    DecisionEvents(name, c, accept);
    assert IntendedTrace(name, texts) == NotDigitDialogs(r) + tail;
    if accept {
      assert tail[0] in IntendedTrace(name, texts);
    }
  }

  /** No rejected day means every field visited was a digit string. */
  lemma {:induction false} NothingRejected(texts: seq<string>, k: nat)
    requires IsWeek(texts) && k <= |Days|
    ensures Rejected(texts, k) == [] <==> forall i :: 0 <= i < k ==> IsDigitString(texts[i])
  {
    if k > 0 {
      NothingRejected(texts, k - 1);
    }
  }

  /** Fewer than `k` ratings after `k` days means some field was not a digit string. */
  lemma RejectedSomewhere(texts: seq<string>, k: nat)
    requires IsWeek(texts) && k <= |Days|
    requires |Collected(texts, k)| < k
    ensures exists i :: 0 <= i < k && !IsDigitString(texts[i])
  {
    CollectedRejectedSplit(texts, k);
    NothingRejected(texts, k);
  }

  /** With the corrected rule the average is never taken over nothing. */
  lemma IntendedNeverDividesByZero(name: string, texts: seq<string>)
    requires IsWeek(texts)
    ensures DivisionByZero !in IntendedTrace(name, texts)
    ensures forall e :: e in IntendedTrace(name, texts) && e.SummaryPopup? ==>
      1.0 <= e.average <= 5.0 && e.info != NoMessage
  {
    var r := Rejected(texts, |texts|);
    var c := Collected(texts, |texts|);
    var accept := |c| == |Days| && Accepted(c);
    var tail := AfterCollection(name, c, accept);
    DialogNamesDay(r, Monday);
    DecisionEvents(name, c, accept);
    assert IntendedTrace(name, texts) == NotDigitDialogs(r) + tail;
    forall e | e in IntendedTrace(name, texts) && e.SummaryPopup?
      ensures 1.0 <= e.average <= 5.0 && e.info != NoMessage
    {
      assert e in tail;
      AcceptedHasMessage(c);
      AverageInRange(c);
    }
  }

  /** The correction changes nothing when every field holds a digit string. */
  lemma IntendedAgreesOnDigitWeeks(name: string, texts: seq<string>)
    requires IsWeek(texts)
    requires forall i :: 0 <= i < |Days| ==> IsDigitString(texts[i])
    ensures IntendedTrace(name, texts) == Trace(name, texts)
  {
    NothingRejected(texts, |texts|);
    CollectedRejectedSplit(texts, |texts|);
  }
}
