/** Cron field text: the validator and the expansion of a field to its set of values. */
module CronText {
  import opened Common
  import opened AsciiText

  // ----- ASCII digit text -----

  predicate IsDigit(c: char) { '0' <= c <= '9' }

  predicate AllDigits(s: string) { forall c | c in s :: IsDigit(c) }

  // Python's `isdigit()`, and the regular expression `\d+`.
  predicate IsNumber(s: string) { s != "" && AllDigits(s) }

  function Value(s: string): nat
    requires AllDigits(s)
  {
    if s == "" then 0
    else
      assert IsDigit(s[|s| - 1]);
      10 * Value(s[..|s| - 1]) + (s[|s| - 1] as nat - '0' as nat)
  }

  function Digits(n: nat): (s: string)
    ensures IsNumber(s)
  {
    var last := [('0' as nat + n % 10) as char];
    if n < 10 then last else Digits(n / 10) + last
  }

  lemma {:induction false} ValueOfDigits(n: nat)
    ensures Value(Digits(n)) == n
  {
    if n >= 10 {
      ValueOfDigits(n / 10);
      assert Digits(n)[..|Digits(n)| - 1] == Digits(n / 10);
    } else {
      assert Digits(n)[..0] == "";
    }
  }

  // ----- The forms a comma-separated part can take -----

  datatype Form =
    | Number(n: nat)
    | Span(first: nat, last: nat)
    | Stepped(base: Base, step: nat)
    | Unknown

  datatype Base = Star | From(n: nat) | Between(first: nat, last: nat)

  // `^(\d+)-(\d+)$`
  function ReadSpan(s: string): Option<(nat, nat)> {
    var i := IndexOf(s, '-');
    if i < |s| && IsNumber(s[..i]) && IsNumber(s[i + 1..])
    then Some((Value(s[..i]), Value(s[i + 1..])))
    else None
  }

  // `(\*|\d+-\d+|\d+)` in front of a step.
  function ReadBase(s: string): Option<Base> {
    if s == "*" then Some(Star)
    else
      match ReadSpan(s)
      case Some((a, b)) => Some(Between(a, b))
      case None => if IsNumber(s) then Some(From(Value(s))) else None
  }

  // The regular expressions tried in the order the source tries them.
  function Read(s: string): Form {
    var i := IndexOf(s, '/');
    if i < |s| && IsNumber(s[i + 1..]) && ReadBase(s[..i]).Some? then
      Stepped(ReadBase(s[..i]).value, Value(s[i + 1..]))
    else
      match ReadSpan(s)
      case Some((a, b)) => Span(a, b)
      case None => if IsNumber(s) then Number(Value(s)) else Unknown
  }

  predicate Listed(item: string, lo: nat, hi: nat) {
    IsNumber(item) && lo <= Value(item) <= hi
  }

  predicate AllListed(items: seq<string>, lo: nat, hi: nat) {
    forall i | 0 <= i < |items| :: Listed(items[i], lo, hi)
  }

  // `_validate_cron_field`
  predicate ValidField(field: string, lo: nat, hi: nat) {
    if field == "*" then true
    else
      match Read(field)
      case Stepped(_, step) => step > 0
      case Span(a, b) => lo <= a <= b <= hi
      case _ => AllListed(Split(field, ','), lo, hi)
  }

  // ----- Expansion -----

  predicate Within(lo: nat, v: int, hi: nat) { lo <= v <= hi }

  // v is one of start, start + step, start + 2 * step, ...
  predicate Reaches(start: int, step: nat, v: int)
    requires step > 0
    decreases v - start
  {
    start == v || (start < v && Reaches(start + step, step, v))
  }

  // Python's `range(start, stop, step)` cut to [lo, hi].
  function RangeSet(start: int, stop: int, step: nat, lo: nat, hi: nat): set<int>
    requires step > 0
  {
    set v: int | lo <= v <= hi && v < stop && Reaches(start, step, v)
  }

  function SteppedSet(base: Base, step: nat, lo: nat, hi: nat): set<int>
    requires step > 0
  {
    match base
    case Star => RangeSet(lo, hi + 1, step, lo, hi)
    case Between(a, b) => RangeSet(a, b + 1, step, lo, hi)
    case From(n) => RangeSet(n, hi + 1, step, lo, hi)
  }

  // The values one comma-separated part contributes; anything unreadable contributes none.
  function PartSet(part: string, lo: nat, hi: nat): set<int> {
    match Read(part)
    case Stepped(base, step) =>
      if step == 0 then {}
      else SteppedSet(base, step, lo, hi)
    case Span(a, b) => RangeSet(a, b + 1, 1, lo, hi)
    case Number(n) => if lo <= n <= hi then {n} else {}
    case Unknown => {}
  }

  function PartsSet(parts: seq<string>, lo: nat, hi: nat): set<int> {
    if parts == [] then {} else PartsSet(parts[..|parts| - 1], lo, hi) + PartSet(parts[|parts| - 1], lo, hi)
  }

  // What `_match_field_values` computes.
  function FieldSet(field: string, lo: nat, hi: nat): set<int> {
    if field == "*" then set v: int | lo <= v <= hi && Within(lo, v, hi) else PartsSet(Split(field, ','), lo, hi)
  }

  // The loop behind `[v for v in range(start, stop, step) if lo <= v <= hi]`.
  method CollectRange(start: nat, stop: int, step: nat, lo: nat, hi: nat) returns (values: set<int>)
    requires step > 0
    ensures values == RangeSet(start, stop, step, lo, hi)
  {
    values := {};
    var v: int := start;
    while v < stop
      invariant values + RangeSet(v, stop, step, lo, hi) == RangeSet(start, stop, step, lo, hi)
      decreases stop - v
    {
      assert RangeSet(v, stop, step, lo, hi) ==
             (if lo <= v <= hi then {v} else {}) + RangeSet(v + step, stop, step, lo, hi);
      if lo <= v <= hi {
        values := values + {v};
      }
      v := v + step;
    }
  }

  method CollectStepped(base: Base, step: nat, lo: nat, hi: nat) returns (values: set<int>)
    requires step > 0
    ensures values == SteppedSet(base, step, lo, hi)
  {
    match base {
      case Star => values := CollectRange(lo, hi + 1, step, lo, hi);
      case Between(a, b) => values := CollectRange(a, b + 1, step, lo, hi);
      case From(n) => values := CollectRange(n, hi + 1, step, lo, hi);
    }
  }

  // `_match_field_values`
  method MatchFieldValues(field: string, lo: nat, hi: nat) returns (values: set<int>)
    ensures values == FieldSet(field, lo, hi)
  {
    if field == "*" {
      return set v: int | lo <= v <= hi && Within(lo, v, hi);
    }
    values := {};
    var parts := Split(field, ',');
    for k := 0 to |parts|
      invariant values == PartsSet(parts[..k], lo, hi)
    {
      assert parts[..k + 1][..k] == parts[..k];
      match Read(parts[k]) {
        case Stepped(base, step) =>
          if step == 0 {
            continue;
          }
          var more := CollectStepped(base, step, lo, hi);
          values := values + more;
        case Span(a, b) =>
          var more := CollectRange(a, b + 1, 1, lo, hi);
          values := values + more;
        case Number(n) =>
          if lo <= n <= hi {
            values := values + {n};
          }
        case Unknown =>
      }
    }
    assert parts[..|parts|] == parts;
  }

  // ----- What the notation means -----

  /** A cron field as the `crontab` notation describes it: every value, a stepped base,
      an inclusive range, or a list of numbers. */
  datatype Field = Every | Steps(base: Base, step: nat) | Range(first: nat, last: nat) | List(items: seq<nat>)

  predicate WellFormed(f: Field, lo: nat, hi: nat) {
    match f
    case Every => true
    case Steps(_, step) => step > 0
    case Range(a, b) => lo <= a <= b <= hi
    case List(items) => items != [] && forall n | n in items :: lo <= n <= hi
  }

  function Times(j: nat, step: nat): nat { j * step }

  ghost predicate IsMultiple(d: int, step: nat) {
    exists j: nat :: Times(j, step) == d
  }

  // v belongs to the field's meaning over [lo, hi].
  ghost predicate Denotes(f: Field, v: int, lo: nat, hi: nat)
    requires WellFormed(f, lo, hi)
  {
    && lo <= v <= hi
    && match f
       case Every => true
       case Steps(Star, k) => IsMultiple(v - lo, k)
       case Steps(From(n), k) => n <= v && IsMultiple(v - n, k)
       case Steps(Between(a, b), k) => a <= v <= b && IsMultiple(v - a, k)
       case Range(a, b) => a <= v <= b
       case List(items) => v in items
  }

  function ShowBase(b: Base): string {
    match b
    case Star => "*"
    case From(n) => Digits(n)
    case Between(a, b) => Digits(a) + ['-'] + Digits(b)
  }

  function ShowAll(items: seq<nat>): (r: seq<string>)
    ensures |r| == |items| && forall i | 0 <= i < |r| :: r[i] == Digits(items[i])
  {
    if items == [] then [] else [Digits(items[0])] + ShowAll(items[1..])
  }

  // An empty list has no text.
  predicate Writable(f: Field) { f.List? ==> f.items != [] }

  function Show(f: Field): string
    requires Writable(f)
  {
    match f
    case Every => "*"
    case Steps(b, k) => ShowBase(b) + ['/'] + Digits(k)
    case Range(a, b) => Digits(a) + ['-'] + Digits(b)
    case List(items) => Join(ShowAll(items), ',')
  }

  // The field a text accepted by the validator stands for.
  function Parse(field: string, lo: nat, hi: nat): (f: Field)
    requires ValidField(field, lo, hi)
    ensures WellFormed(f, lo, hi)
  {
    if field == "*" then Every
    else
      match Read(field)
      case Stepped(b, k) => Steps(b, k)
      case Span(a, b) => Range(a, b)
      case _ => List(ReadAll(Split(field, ','), lo, hi))
  }

  function ReadAll(items: seq<string>, lo: nat, hi: nat): (r: seq<nat>)
    requires AllListed(items, lo, hi)
    ensures |r| == |items|
    ensures forall i | 0 <= i < |r| :: Listed(items[i], lo, hi) && r[i] == Value(items[i])
  {
    if items == [] then []
    else
      var last := items[|items| - 1];
      assert Listed(last, lo, hi);
      ReadAll(items[..|items| - 1], lo, hi) + [Value(last)]
  }

  // ----- Theorems about fields -----

  lemma {:induction false} InParts(parts: seq<string>, lo: nat, hi: nat, v: int)
    ensures v in PartsSet(parts, lo, hi) <==> exists p | p in parts :: v in PartSet(p, lo, hi)
  {
    if parts != [] {
      var init, last := parts[..|parts| - 1], parts[|parts| - 1];
      InParts(init, lo, hi, v);
      assert parts == init + [last];
    }
  }

  /** Whatever the text, expansion stays inside the field's bounds. */
  lemma WithinBounds(field: string, lo: nat, hi: nat)
    ensures forall v | v in FieldSet(field, lo, hi) :: lo <= v <= hi
  {
    forall v | v in FieldSet(field, lo, hi)
      ensures lo <= v <= hi
    {
      if field != "*" { InParts(Split(field, ','), lo, hi, v); }
    }
  }

  lemma NoSeparator(field: string)
    requires !Read(field).Unknown?
    ensures Split(field, ',') == [field]
  {
    var i := IndexOf(field, '/');
    var j := IndexOf(field, '-');
    if Read(field).Stepped? {
      var base := field[..i];
      var k := IndexOf(base, '-');
      assert field == base + ['/'] + field[i + 1..];
      if base != "*" && ReadSpan(base).Some? {
        assert base == base[..k] + ['-'] + base[k + 1..];
      }
    } else if Read(field).Span? {
      assert field == field[..j] + ['-'] + field[j + 1..];
    }
    assert ',' !in field;
    IndexWhenAbsent(field, ',');
  }

  /** Every field the validator accepts expands to exactly its cron meaning. */
  lemma ExpansionIsMeaning(field: string, lo: nat, hi: nat)
    requires ValidField(field, lo, hi)
    ensures forall v :: v in FieldSet(field, lo, hi) <==> Denotes(Parse(field, lo, hi), v, lo, hi)
  {
    WithinBounds(field, lo, hi);
    forall v: int | lo <= v <= hi
      ensures v in FieldSet(field, lo, hi) <==> Denotes(Parse(field, lo, hi), v, lo, hi)
    {
      if field != "*" {
        var parts := Split(field, ',');
        InParts(parts, lo, hi, v);
        var form := Read(field);
        if form.Stepped? || form.Span? {
          NoSeparator(field);
          assert v in FieldSet(field, lo, hi) <==> v in PartSet(field, lo, hi);
          PartMeaning(field, lo, hi, v);
        } else {
          ListMeaning(parts, lo, hi, v);
        }
      }
    }
  }

  lemma {:induction false} ReachesIsMultiple(start: int, step: nat, v: int)
    requires step > 0
    ensures Reaches(start, step, v) <==> IsMultiple(v - start, step)
    decreases v - start
  {
    if start == v {
      assert Times(0, step) == v - start;
    } else if start < v {
      ReachesIsMultiple(start + step, step, v);
      if j: nat :| Times(j, step) == v - (start + step) {
        assert Times(j + 1, step) == v - start;
      }
      if j: nat :| Times(j, step) == v - start {
        assert j > 0;
        assert Times(j - 1, step) == v - (start + step);
      }
    }
  }

  lemma ReachesAreMultiples(start: int, step: nat)
    requires step > 0
    ensures forall v :: Reaches(start, step, v) <==> IsMultiple(v - start, step)
  {
    forall v
      ensures Reaches(start, step, v) <==> IsMultiple(v - start, step)
    {
      ReachesIsMultiple(start, step, v);
    }
  }

  lemma ReachesUpward(start: int, step: nat, v: int)
    requires step > 0 && Reaches(start, step, v)
    ensures start <= v
  {
  }

  lemma PartMeaning(field: string, lo: nat, hi: nat, v: int)
    requires ValidField(field, lo, hi) && field != "*"
    requires Read(field).Stepped? || Read(field).Span?
    ensures v in PartSet(field, lo, hi) <==> Denotes(Parse(field, lo, hi), v, lo, hi)
  {
    match Read(field)
    case Stepped(Star, k) => ReachesIsMultiple(lo, k, v);
    case Stepped(From(n), k) => ReachesIsMultiple(n, k, v);
    case Stepped(Between(a, b), k) => ReachesIsMultiple(a, k, v);
    case Span(a, b) => ReachesIsMultiple(a, 1, v); assert a <= v ==> Times(v - a, 1) == v - a;
  }

  lemma ReadNumber(s: string)
    requires IsNumber(s)
    ensures Read(s) == Number(Value(s))
  {
    IndexWhenAbsent(s, '/');
    IndexWhenAbsent(s, '-');
  }

  lemma {:induction false} ListMeaning(parts: seq<string>, lo: nat, hi: nat, v: int)
    requires AllListed(parts, lo, hi)
    ensures v in PartsSet(parts, lo, hi) <==> v in ReadAll(parts, lo, hi)
  {
    if parts != [] {
      var last := parts[|parts| - 1];
      assert Listed(last, lo, hi);
      ReadNumber(last);
      ListMeaning(parts[..|parts| - 1], lo, hi, v);
    }
  }

  /** Text round trip: a field written in the notation is accepted, and read back as itself. */
  lemma ParseOfShow(f: Field, lo: nat, hi: nat)
    requires WellFormed(f, lo, hi)
    ensures ValidField(Show(f), lo, hi)
    ensures Parse(Show(f), lo, hi) == f
  {
    match f
    case Every =>
    case Steps(b, k) => ReadOfSteps(b, k);
    case Range(a, b) => ReadOfSpan(a, b);
    case List(items) => ParseOfList(items, lo, hi);
  }

  lemma ReadSpanOf(a: nat, b: nat)
    ensures ReadSpan(Digits(a) + ['-'] + Digits(b)) == Some((a, b))
  {
    IndexAfterPrefix(Digits(a), '-', Digits(b));
    ValueOfDigits(a);
    ValueOfDigits(b);
  }

  lemma ReadOfSpan(a: nat, b: nat)
    ensures Read(Digits(a) + ['-'] + Digits(b)) == Span(a, b)
  {
    ReadSpanOf(a, b);
    IndexWhenAbsent(Digits(a) + ['-'] + Digits(b), '/');
  }

  lemma ReadOfSteps(b: Base, k: nat)
    ensures Read(ShowBase(b) + ['/'] + Digits(k)) == Stepped(b, k)
  {
    ValueOfDigits(k);
    IndexAfterPrefix(ShowBase(b), '/', Digits(k));
    match b
    case Star =>
    case From(n) =>
      ValueOfDigits(n);
      IndexWhenAbsent(Digits(n), '-');
    case Between(first, last) => ReadSpanOf(first, last);
  }

  lemma ParseOfList(items: seq<nat>, lo: nat, hi: nat)
    requires WellFormed(List(items), lo, hi)
    ensures ValidField(Show(List(items)), lo, hi)
    ensures Parse(Show(List(items)), lo, hi) == List(items)
  {
    var texts := ShowAll(items);
    var field := Join(texts, ',');
    forall i | 0 <= i < |texts|
      ensures ',' !in texts[i] && Listed(texts[i], lo, hi) && Value(texts[i]) == items[i]
    {
      assert items[i] in items;
      ValueOfDigits(items[i]);
    }
    SplitOfJoin(texts, ',');
    JoinOfNumbers(texts);
    assert ReadAll(texts, lo, hi) == items;
  }

  // A comma-joined list of numbers is never a range or a step, and "*" is not one.
  lemma {:induction false} JoinOfNumbers(texts: seq<string>)
    requires texts != [] && forall t | t in texts :: IsNumber(t)
    ensures forall c | c in Join(texts, ',') :: IsDigit(c) || c == ','
    ensures Join(texts, ',') != "*"
    ensures !Read(Join(texts, ',')).Stepped? && !Read(Join(texts, ',')).Span?
  {
    if |texts| > 1 { JoinOfNumbers(texts[1..]); }
    var s := Join(texts, ',');
    assert texts[0] in texts && texts[0] != "";
    assert s[0] == texts[0][0] && s[0] in s;
    IndexWhenAbsent(s, '/');
    IndexWhenAbsent(s, '-');
  }

  lemma ListedExactly(items: seq<nat>, lo: nat, hi: nat)
    ensures AllListed(ShowAll(items), lo, hi) <==> forall i | 0 <= i < |items| :: lo <= items[i] <= hi
  {
    var texts := ShowAll(items);
    forall i | 0 <= i < |items|
      ensures Listed(texts[i], lo, hi) <==> lo <= items[i] <= hi
    {
      ValueOfDigits(items[i]);
    }
    if AllListed(texts, lo, hi) {
      assert forall i | 0 <= i < |items| :: Listed(texts[i], lo, hi);
    }
  }

  /** Text written in the notation is accepted if and only if the field it shows is well formed: a
      positive step, a range in order inside the bounds, or a list inside the bounds. */
  lemma FieldAcceptedExactly(f: Field, lo: nat, hi: nat)
    requires Writable(f)
    ensures ValidField(Show(f), lo, hi) <==>
            match f
            case Every => true
            case Steps(_, step) => step >= 1
            case Range(a, b) => lo <= a && a <= b && b <= hi
            case List(items) => forall i | 0 <= i < |items| :: lo <= items[i] <= hi
  {
    match f
    case Every =>
    case Steps(b, k) => ReadOfSteps(b, k);
    case Range(a, b) => ReadOfSpan(a, b);
    case List(items) => ListAcceptedExactly(items, lo, hi);
  }

  lemma ListAcceptedExactly(items: seq<nat>, lo: nat, hi: nat)
    requires items != []
    ensures ValidField(Join(ShowAll(items), ','), lo, hi) <==> forall i | 0 <= i < |items| :: lo <= items[i] <= hi
  {
    var texts := ShowAll(items);
    assert forall i | 0 <= i < |texts| :: ',' !in texts[i] && IsNumber(texts[i]);
    SplitOfJoin(texts, ',');
    JoinOfNumbers(texts);
    ListedExactly(items, lo, hi);
  }

  // The least value at or above `lo` that a stepped base starting at `start` reaches.
  function FirstHit(start: nat, step: nat, lo: nat): nat
    requires step > 0
    decreases lo - start
  {
    if lo <= start then start else FirstHit(start + step, step, lo)
  }

  lemma {:induction false} FirstHitIsLeast(start: nat, step: nat, lo: nat)
    requires step > 0
    ensures lo <= FirstHit(start, step, lo) && Reaches(start, step, FirstHit(start, step, lo))
    ensures forall v | lo <= v && Reaches(start, step, v) :: FirstHit(start, step, lo) <= v
    decreases lo - start
  {
    if start < lo { FirstHitIsLeast(start + step, step, lo); }
    forall v | lo <= v && Reaches(start, step, v)
      ensures FirstHit(start, step, lo) <= v
    {
      ReachesUpward(start, step, v);
      assert start < lo ==> Reaches(start + step, step, v);
    }
  }

  // The one way an accepted field can expand to nothing: a stepped base that never lands in [lo, hi].
  predicate StepsMissRange(f: Field, lo: nat, hi: nat) {
    match f
    case Steps(From(n), k) => k > 0 && FirstHit(n, k, lo) > hi
    case Steps(Between(a, b), k) => k > 0 && (FirstHit(a, k, lo) > hi || FirstHit(a, k, lo) > b)
    case _ => false
  }

  /** An accepted field is empty exactly when its stepped base misses the range. */
  lemma EmptyExactly(field: string, lo: nat, hi: nat)
    requires lo <= hi && ValidField(field, lo, hi)
    ensures FieldSet(field, lo, hi) == {} <==> StepsMissRange(Parse(field, lo, hi), lo, hi)
  {
    ExpansionIsMeaning(field, lo, hi);
    MeaningEmptyExactly(Parse(field, lo, hi), lo, hi);
    var f := Parse(field, lo, hi);
    if v :| Denotes(f, v, lo, hi) {
      assert v in FieldSet(field, lo, hi);
    }
  }

  // A step form denotes something at or below v only if its first hit is at or below v.
  lemma StepsHit(f: Field, start: nat, k: nat, lo: nat, hi: nat)
    requires WellFormed(f, lo, hi) && k > 0
    requires f == Steps(From(start), k) || (f.Steps? && f.base.Between? && f.base.first == start && f.step == k)
    ensures lo <= FirstHit(start, k, lo) && start <= FirstHit(start, k, lo)
    ensures IsMultiple(FirstHit(start, k, lo) - start, k)
    ensures forall v | Denotes(f, v, lo, hi) :: FirstHit(start, k, lo) <= v
  {
    FirstHitIsLeast(start, k, lo);
    ReachesAreMultiples(start, k);
    ReachesUpward(start, k, FirstHit(start, k, lo));
    forall v | Denotes(f, v, lo, hi)
      ensures FirstHit(start, k, lo) <= v
    {
      assert Reaches(start, k, v);
    }
  }

  lemma MeaningEmptyExactly(f: Field, lo: nat, hi: nat)
    requires lo <= hi && WellFormed(f, lo, hi)
    ensures (forall v :: !Denotes(f, v, lo, hi)) <==> StepsMissRange(f, lo, hi)
  {
    match f
    case Every => assert Denotes(f, lo, lo, hi);
    case Steps(Star, k) =>
      assert Times(0, k) == lo - lo;
      assert Denotes(f, lo, lo, hi);
    case Steps(From(n), k) =>
      StepsHit(f, n, k, lo, hi);
      assert FirstHit(n, k, lo) <= hi ==> Denotes(f, FirstHit(n, k, lo), lo, hi);
    case Steps(Between(a, b), k) =>
      StepsHit(f, a, k, lo, hi);
      var v := FirstHit(a, k, lo);
      assert v <= hi && v <= b ==> Denotes(f, v, lo, hi);
    case Range(a, b) => assert Denotes(f, a, lo, hi);
    case List(items) =>
      assert items[0] in items;
      assert Denotes(f, items[0], lo, hi);
  }

  /** A stepped base inside the bounds and not reversed always contributes a value. */
  lemma InRangeBaseIsNonEmpty(field: string, lo: nat, hi: nat)
    requires lo <= hi && ValidField(field, lo, hi)
    requires match Parse(field, lo, hi)
             case Steps(From(n), _) => lo <= n <= hi
             case Steps(Between(a, b), _) => lo <= a <= hi && a <= b
             case _ => true
    ensures FieldSet(field, lo, hi) != {}
  {
    EmptyExactly(field, lo, hi);
  }

  // The weekday set of `calculate_next_run_at`: 0..6, with 7 folded onto Sunday.
  function WeekdaySet(field: string): set<int> {
    FieldSet(field, 0, 6) + (if 7 in FieldSet(field, 0, 7) then {0} else {})
  }

  lemma PartBelowSeven(part: string, v: int)
    requires 0 <= v <= 6
    ensures v in PartSet(part, 0, 6) <==> v in PartSet(part, 0, 7)
  {
  }

  lemma SameBelowSeven(field: string, v: int)
    requires 0 <= v <= 6
    ensures v in FieldSet(field, 0, 6) <==> v in FieldSet(field, 0, 7)
  {
    if field != "*" {
      var parts := Split(field, ',');
      InParts(parts, 0, 6, v);
      InParts(parts, 0, 7, v);
      forall p | p in parts
        ensures v in PartSet(p, 0, 6) <==> v in PartSet(p, 0, 7)
      {
        PartBelowSeven(p, v);
      }
    }
  }

  lemma FoldSeven(six: set<int>, seven: set<int>)
    requires (forall v | v in six :: 0 <= v <= 6) && (forall v | v in seven :: 0 <= v <= 7)
    requires forall v | 0 <= v <= 6 :: v in six <==> v in seven
    ensures six + (if 7 in seven then {0} else {}) == set v | v in seven :: v % 7
  {
    var folded := set v | v in seven :: v % 7;
    forall v: int | v in six
      ensures v in folded
    {
      assert v in seven && v % 7 == v;
    }
    if 7 in seven {
      assert 7 % 7 == 0;
      assert 0 in folded;
    }
  }

  /** The weekday set is the 0..7 expansion taken modulo 7. */
  lemma WeekdaysModSeven(field: string)
    ensures WeekdaySet(field) == set v | v in FieldSet(field, 0, 7) :: v % 7
  {
    WithinBounds(field, 0, 6);
    WithinBounds(field, 0, 7);
    forall v | 0 <= v <= 6
      ensures v in FieldSet(field, 0, 6) <==> v in FieldSet(field, 0, 7)
    {
      SameBelowSeven(field, v);
    }
    FoldSeven(FieldSet(field, 0, 6), FieldSet(field, 0, 7));
  }
}
