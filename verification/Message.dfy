/** Messages made of fields with a delimiter between them: the constructor, the parser, and what
    parsing a constructed message gives back. */
module Message {

  /** s[i..j] is a field: nonempty, without the delimiter, and as long as it can be. */
  ghost predicate MaximalRun(s: string, d: char, i: nat, j: nat) {
    && i < j <= |s|
    && (forall k :: i <= k < j ==> s[k] != d)
    && (i == 0 || s[i - 1] == d)
    && (j == |s| || s[j] == d)
  }

  /** The spans are all the fields of s, each once, from left to right. */
  ghost predicate AllRuns(s: string, d: char, spans: seq<(nat, nat)>) {
    && (forall n :: 0 <= n < |spans| ==> MaximalRun(s, d, spans[n].0, spans[n].1))
    && (forall m, n :: 0 <= m < n < |spans| ==> spans[m].1 < spans[n].0)
    && (forall i: nat, j: nat :: MaximalRun(s, d, i, j) ==> (i, j) in spans)
  }

  /** The first place from i on that holds no delimiter. */
  function SkipFrom(s: string, d: char, i: nat): (j: nat)
    requires i <= |s|
    ensures i <= j <= |s| && (j < |s| ==> s[j] != d)
    ensures forall k :: i <= k < j ==> s[k] == d
    decreases |s| - i
  {
    if i < |s| && s[i] == d then SkipFrom(s, d, i + 1) else i
  }

  /** The first place from i on that holds a delimiter. */
  function RunEnd(s: string, d: char, i: nat): (j: nat)
    requires i <= |s|
    ensures i <= j <= |s| && (j < |s| ==> s[j] == d)
    ensures forall k :: i <= k < j ==> s[k] != d
    decreases |s| - i
  {
    if i < |s| && s[i] != d then RunEnd(s, d, i + 1) else i
  }

  /** The fields that begin at i or later, when no field spans i - 1 and i. */
  function Spans(s: string, d: char, i: nat): seq<(nat, nat)>
    requires i <= |s|
    decreases |s| - i
  {
    var start := SkipFrom(s, d, i);
    if start == |s| then [] else [(start, RunEnd(s, d, start))] + Spans(s, d, RunEnd(s, d, start))
  }

  lemma {:induction false} SpansAreRuns(s: string, d: char, i: nat)
    requires i <= |s| && (i == 0 || i == |s| || s[i - 1] == d || s[i] == d)
    ensures forall n :: 0 <= n < |Spans(s, d, i)| ==>
      i <= Spans(s, d, i)[n].0 && MaximalRun(s, d, Spans(s, d, i)[n].0, Spans(s, d, i)[n].1)
    ensures forall m, n :: 0 <= m < n < |Spans(s, d, i)| ==> Spans(s, d, i)[m].1 < Spans(s, d, i)[n].0
    decreases |s| - i
  {
    var start := SkipFrom(s, d, i);
    if start < |s| {
      var end := RunEnd(s, d, start);
      SpansAreRuns(s, d, end);
      var rest := Spans(s, d, end);
      assert MaximalRun(s, d, start, end);
      forall n | 0 <= n < |rest| ensures end < rest[n].0 {
        assert MaximalRun(s, d, rest[n].0, rest[n].1);
      }
    }
  }

  lemma {:induction false} RunIsASpan(s: string, d: char, from: nat, i: nat, j: nat)
    requires from <= i && MaximalRun(s, d, i, j)
    ensures (i, j) in Spans(s, d, from)
    decreases |s| - from
  {
    var start := SkipFrom(s, d, from);
    var end := RunEnd(s, d, start);
    assert s[i] != d && start <= i;
    if start == i {
      assert end == j;
    } else {
      RunIsASpan(s, d, end, i, j);
    }
  }

  /** The spans that the parser records are the maximal runs without a delimiter, in order. */
  lemma SpansAreAllRuns(s: string, d: char)
    ensures AllRuns(s, d, Spans(s, d, 0))
  {
    SpansAreRuns(s, d, 0);
    forall i: nat, j: nat | MaximalRun(s, d, i, j) ensures (i, j) in Spans(s, d, 0) {
      RunIsASpan(s, d, 0, i, j);
    }
  }

  ghost predicate Increasing(spans: seq<(nat, nat)>) {
    forall m, n :: 0 <= m < n < |spans| ==> spans[m].0 < spans[n].0
  }

  /** Increasing lists with the same members agree at every place. */
  lemma {:induction false} SameMembers(a: seq<(nat, nat)>, b: seq<(nat, nat)>, n: nat)
    requires Increasing(a) && Increasing(b) && n < |a|
    requires forall x :: x in a <==> x in b
    ensures n < |b| && a[n] == b[n]
  {
    forall k | 0 <= k < n ensures k < |b| && a[k] == b[k] { SameMembers(a, b, k); }
    assert a[n] in b;
    var m :| 0 <= m < |b| && b[m] == a[n];
    assert m >= n;
    assert b[n] in a;
    var l :| 0 <= l < |a| && a[l] == b[n];
    assert l >= n;
  }

  /** No other list of spans has that property. */
  lemma AllRunsIsUnique(s: string, d: char, a: seq<(nat, nat)>, b: seq<(nat, nat)>)
    requires AllRuns(s, d, a) && AllRuns(s, d, b)
    ensures a == b
  {
    RunsIncrease(s, d, a);
    RunsIncrease(s, d, b);
    if a != [] { SameMembers(a, b, |a| - 1); }
    if b != [] { SameMembers(b, a, |b| - 1); }
    forall n | 0 <= n < |a| ensures a[n] == b[n] { SameMembers(a, b, n); }
  }

  lemma RunsIncrease(s: string, d: char, a: seq<(nat, nat)>)
    requires AllRuns(s, d, a)
    ensures Increasing(a) && forall x :: x in a <==> MaximalRun(s, d, x.0, x.1)
  {
    forall x | x in a ensures MaximalRun(s, d, x.0, x.1) {
      var n :| 0 <= n < |a| && a[n] == x;
    }
    forall m, n | 0 <= m < n < |a| ensures a[m].0 < a[n].0 {
      assert MaximalRun(s, d, a[m].0, a[m].1);
    }
  }

  predicate Within(s: string, spans: seq<(nat, nat)>) {
    forall n :: 0 <= n < |spans| ==> spans[n].0 <= spans[n].1 <= |s|
  }

  /** The texts that the spans mark in s. */
  function Texts(s: string, spans: seq<(nat, nat)>): (texts: seq<string>)
    requires Within(s, spans)
    ensures |texts| == |spans|
    ensures forall n :: 0 <= n < |spans| ==> texts[n] == s[spans[n].0..spans[n].1]
  {
    if spans == [] then [] else [s[spans[0].0..spans[0].1]] + Texts(s, spans[1..])
  }

  /** The fields of a message as texts. */
  function Fields(s: string, d: char): seq<string> {
    if s == [] then []
    else if s[0] == d then Fields(s[1..], d)
    else [s[..RunEnd(s, d, 0)]] + Fields(s[RunEnd(s, d, 0)..], d)
  }

  lemma {:induction false} RunEndOfSuffix(s: string, d: char, i: nat, k: nat)
    requires i <= |s| && k <= |s| - i
    ensures RunEnd(s, d, i + k) == i + RunEnd(s[i..], d, k)
    decreases |s| - i - k
  {
    if i + k < |s| && s[i + k] != d { RunEndOfSuffix(s, d, i, k + 1); }
  }

  lemma SpansAreWithin(s: string, d: char, i: nat)
    requires i <= |s| && (i == 0 || i == |s| || s[i - 1] == d || s[i] == d)
    ensures Within(s, Spans(s, d, i))
  {
    SpansAreRuns(s, d, i);
  }

  lemma AtDelimiter(s: string, d: char, i: nat)
    requires i < |s| && s[i] == d
    ensures Spans(s, d, i) == Spans(s, d, i + 1)
    ensures Fields(s[i..], d) == Fields(s[i + 1..], d)
  {
    assert s[i..][1..] == s[i + 1..];
  }

  lemma SpansAtField(s: string, d: char, i: nat)
    requires i < |s| && s[i] != d
    ensures Spans(s, d, i) == [(i, RunEnd(s, d, i))] + Spans(s, d, RunEnd(s, d, i))
  {
  }

  lemma SplitSlice(s: string, i: nat, end: nat)
    requires i <= end <= |s|
    ensures s[i..][..end - i] == s[i..end] && s[i..][end - i..] == s[end..]
  {
  }

  lemma FieldsAtField(s: string, d: char, i: nat)
    requires i < |s| && s[i] != d
    ensures Fields(s[i..], d) == [s[i..RunEnd(s, d, i)]] + Fields(s[RunEnd(s, d, i)..], d)
  {
    RunEndOfSuffix(s, d, i, 0);
    SplitSlice(s, i, RunEnd(s, d, i));
  }

  /** What the parser hands out through its index operator is Fields. */
  lemma {:induction false} TextsOfSpans(s: string, d: char, i: nat)
    requires i <= |s| && (i == 0 || i == |s| || s[i - 1] == d || s[i] == d)
    ensures Within(s, Spans(s, d, i)) && Texts(s, Spans(s, d, i)) == Fields(s[i..], d)
    decreases |s| - i
  {
    SpansAreWithin(s, d, i);
    if i < |s| {
      if s[i] == d {
        AtDelimiter(s, d, i);
        TextsOfSpans(s, d, i + 1);
      } else {
        SpansAtField(s, d, i);
        FieldsAtField(s, d, i);
        TextsOfSpans(s, d, RunEnd(s, d, i));
        assert Spans(s, d, i)[1..] == Spans(s, d, RunEnd(s, d, i));
      }
    }
  }

  lemma {:induction false} RunEndOfConcat(a: string, d: char, b: string, i: nat)
    requires i <= |a|
    ensures RunEnd(a + [d] + b, d, i) == RunEnd(a, d, i)
    decreases |a| - i
  {
    if i < |a| && a[i] != d { RunEndOfConcat(a, d, b, i + 1); }
  }

  /** A delimiter separates for good: the fields of both sides, one after the other. */
  lemma {:induction false} FieldsOfConcat(a: string, d: char, b: string)
    ensures Fields(a + [d] + b, d) == Fields(a, d) + Fields(b, d)
    decreases |a|
  {
    var s := a + [d] + b;
    if a == [] {
      assert s[1..] == b;
    } else if a[0] == d {
      assert s[1..] == a[1..] + [d] + b;
      FieldsOfConcat(a[1..], d, b);
    } else {
      var end := RunEnd(a, d, 0);
      RunEndOfConcat(a, d, b, 0);
      assert end > 0;
      assert s[end..] == a[end..] + [d] + b;
      assert s[..end] == a[..end];
      FieldsOfConcat(a[end..], d, b);
    }
  }

  /** The message after `add_field`. */
  function Appended(message: string, field: string, d: char): string {
    if message == [] then field else message + [d] + field
  }

  /** The message after adding the fields one by one. */
  function Construct(fields: seq<string>, d: char): string {
    if fields == [] then "" else Appended(Construct(fields[..|fields| - 1], d), fields[|fields| - 1], d)
  }

  /** The fields with exactly one delimiter between neighbours. */
  function Joined(fields: seq<string>, d: char): string {
    if fields == [] then ""
    else if |fields| == 1 then fields[0]
    else fields[0] + [d] + Joined(fields[1..], d)
  }

  function DropEmptyFront(fields: seq<string>): seq<string> {
    if fields != [] && fields[0] == "" then DropEmptyFront(fields[1..]) else fields
  }

  lemma {:induction false} JoinedOneMore(fields: seq<string>, field: string, d: char)
    requires fields != []
    ensures Joined(fields + [field], d) == Joined(fields, d) + [d] + field
  {
    var longer := fields + [field];
    assert longer[1..] == fields[1..] + [field];
    if |fields| == 1 {
      assert longer[1..] == [field];
    } else {
      JoinedOneMore(fields[1..], field, d);
    }
  }

  lemma {:induction false} DropEmptyFrontOneMore(fields: seq<string>, field: string)
    ensures DropEmptyFront(fields + [field]) ==
            if DropEmptyFront(fields) == [] && field == "" then [] else DropEmptyFront(fields) + [field]
  {
    var longer := fields + [field];
    if fields != [] {
      assert longer[1..] == fields[1..] + [field];
      if fields[0] == "" { DropEmptyFrontOneMore(fields[1..], field); }
    } else {
      assert longer == [field] && [field][1..] == [];
    }
  }

  lemma {:induction false} FrontIsNotEmpty(fields: seq<string>, d: char)
    ensures DropEmptyFront(fields) != [] ==> DropEmptyFront(fields)[0] != ""
    ensures DropEmptyFront(fields) == [] <==> Joined(DropEmptyFront(fields), d) == ""
  {
    if fields != [] && fields[0] == "" { FrontIsNotEmpty(fields[1..], d); }
  }

  /** The message is its fields with one delimiter between neighbours; empty fields at the front leave
      nothing behind, not even a delimiter. */
  lemma {:induction false} ConstructIsJoined(fields: seq<string>, d: char)
    ensures Construct(fields, d) == Joined(DropEmptyFront(fields), d)
  {
    if fields != [] {
      var front, last := fields[..|fields| - 1], fields[|fields| - 1];
      assert fields == front + [last];
      ConstructIsJoined(front, d);
      FrontIsNotEmpty(front, d);
      DropEmptyFrontOneMore(front, last);
      if DropEmptyFront(front) != [] { JoinedOneMore(DropEmptyFront(front), last, d); }
    }
  }

  /** The fields of each text, one after the other. */
  function AllFields(texts: seq<string>, d: char): seq<string> {
    if texts == [] then [] else AllFields(texts[..|texts| - 1], d) + Fields(texts[|texts| - 1], d)
  }

  function Nonempty(texts: seq<string>): seq<string> {
    if texts == [] then []
    else Nonempty(texts[..|texts| - 1]) + if texts[|texts| - 1] == "" then [] else [texts[|texts| - 1]]
  }

  /** Parsing a constructed message gives what parsing each field alone gives. */
  lemma {:induction false} ParseOfConstruct(fields: seq<string>, d: char)
    ensures Fields(Construct(fields, d), d) == AllFields(fields, d)
  {
    if fields != [] {
      var front, last := fields[..|fields| - 1], fields[|fields| - 1];
      ParseOfConstruct(front, d);
      if Construct(front, d) != [] { FieldsOfConcat(Construct(front, d), d, last); }
    }
  }

  lemma FieldsOfPlainText(text: string, d: char)
    requires d !in text
    ensures Fields(text, d) == if text == "" then [] else [text]
  {
    if text != "" {
      var end := RunEnd(text, d, 0);
      assert end == |text|;
      assert text[..end] == text && text[end..] == [];
    }
  }

  /** Fields without the delimiter come back in order; the empty ones are lost. */
  lemma {:induction false} PlainFieldsComeBack(fields: seq<string>, d: char)
    requires forall f :: f in fields ==> d !in f
    ensures Fields(Construct(fields, d), d) == Nonempty(fields)
  {
    ParseOfConstruct(fields, d);
    if fields != [] {
      var front, last := fields[..|fields| - 1], fields[|fields| - 1];
      assert forall f :: f in front ==> f in fields;
      PlainFieldsComeBack(front, d);
      ParseOfConstruct(front, d);
      FieldsOfPlainText(last, d);
    }
  }

  lemma {:induction false} FieldsArePlain(s: string, d: char)
    ensures forall f :: f in Fields(s, d) ==> f != "" && d !in f
    decreases |s|
  {
    if s != [] {
      if s[0] == d {
        FieldsArePlain(s[1..], d);
      } else {
        FieldsArePlain(s[RunEnd(s, d, 0)..], d);
      }
    }
  }

  lemma {:induction false} NonemptyIsAll(texts: seq<string>)
    requires "" !in texts
    ensures Nonempty(texts) == texts
  {
    if texts != [] {
      var front := texts[..|texts| - 1];
      assert texts == front + [texts[|texts| - 1]];
      assert "" !in front;
      NonemptyIsAll(front);
    }
  }

  /** The round trip gives the field list back exactly when no field is empty or holds the delimiter. */
  lemma RoundTripIff(fields: seq<string>, d: char)
    ensures Fields(Construct(fields, d), d) == fields <==> forall f :: f in fields ==> f != "" && d !in f
  {
    FieldsArePlain(Construct(fields, d), d);
    if forall f :: f in fields ==> f != "" && d !in f {
      PlainFieldsComeBack(fields, d);
      NonemptyIsAll(fields);
    }
  }

  /** A message rebuilt from the fields of any text has those same fields. */
  lemma RebuiltMessage(s: string, d: char)
    ensures Fields(Construct(Fields(s, d), d), d) == Fields(s, d)
  {
    FieldsArePlain(s, d);
    RoundTripIff(Fields(s, d), d);
  }

  /** Recording the field at the start of what is left to be read. */
  lemma FieldIsNext(s: string, d: char, fields: seq<(nat, nat)>, start: nat)
    requires start <= |s| && (start < |s| ==> s[start] != d)
    ensures var end := RunEnd(s, d, start);
            fields + Spans(s, d, start) ==
            (if start == end then fields else fields + [(start, end)]) + Spans(s, d, end)
  {
    if start < |s| { SpansAtField(s, d, start); }
  }

  class MessageConstructor {
    const delimiter: char
    var message: string
    ghost var added: seq<string>

    ghost predicate Valid()
      reads this
    {
      message == Construct(added, delimiter)
    }

    constructor (delimiter: char)
      ensures Valid() && this.delimiter == delimiter && added == []
    {
      this.delimiter := delimiter;
      message := "";
      added := [];
    }

    method AddField(field: string)
      requires Valid()
      modifies this
      ensures Valid() && added == old(added) + [field]
    {
      if message != "" {
        message := message + [delimiter];
      }
      message := message + field;
      added := added + [field];
      assert added[..|added| - 1] == old(added);
    }
  }

  /** The parser holds spans of its content, as the source holds pairs of iterators. */
  class MessageParser {
    const content: string
    const delimiter: char
    var position: nat
    var fields: seq<(nat, nat)>

    /** What was read so far and what is still to be read are the fields of the content. */
    ghost predicate Reading()
      reads this
    {
      && position <= |content|
      && fields + Spans(content, delimiter, position) == Spans(content, delimiter, 0)
    }

    ghost predicate Valid()
      reads this
    {
      AllRuns(content, delimiter, fields)
    }

    constructor (message: string, delimiter: char)
      ensures Valid() && content == message && this.delimiter == delimiter && position == |message|
    {
      content := message;
      this.delimiter := delimiter;
      position := 0;
      fields := [];
      new;
      var ended := AtEnd();
      while !ended
        invariant Reading() && ended == (position == |content|)
        invariant !ended ==> content[position] != delimiter
        decreases |content| - position, !ended
      {
        ReadField();
        ended := AtEnd();
      }
      assert fields + Spans(content, delimiter, position) == fields;
      SpansAreAllRuns(content, delimiter);
    }

    method SkipDelimiter()
      requires Reading()
      modifies this`position
      ensures Reading() && position == SkipFrom(content, delimiter, old(position))
    {
      while position < |content| && content[position] == delimiter
        invariant position <= |content|
        invariant SkipFrom(content, delimiter, position) == SkipFrom(content, delimiter, old(position))
      {
        position := position + 1;
      }
    }

    /** The second loop of `read_field`. */
    method SkipField()
      requires position <= |content|
      modifies this`position
      ensures position == RunEnd(content, delimiter, old(position))
    {
      while position < |content| && content[position] != delimiter
        invariant old(position) <= position <= |content|
        invariant RunEnd(content, delimiter, position) == RunEnd(content, delimiter, old(position))
      {
        position := position + 1;
      }
    }

    method ReadField()
      requires Reading()
      modifies this
      ensures Reading()
      ensures position == RunEnd(content, delimiter, SkipFrom(content, delimiter, old(position)))
    {
      SkipDelimiter();
      var start := position;
      FieldIsNext(content, delimiter, fields, start);
      SkipField();
      if start != position {
        fields := fields + [(start, position)];
      }
    }

    method AtEnd() returns (ended: bool)
      requires Reading()
      modifies this`position
      ensures Reading() && position == SkipFrom(content, delimiter, old(position))
      ensures ended <==> position == |content|
    {
      SkipDelimiter();
      ended := position == |content|;
    }

    method Size() returns (n: nat)
      requires Valid()
      ensures n == |Fields(content, delimiter)|
    {
      FieldsAreTheTexts();
      n := |fields|;
    }

    /** The index operator. */
    method Field(i: nat) returns (text: string)
      requires Valid() && i < |fields|
      ensures i < |Fields(content, delimiter)| && text == Fields(content, delimiter)[i]
    {
      FieldsAreTheTexts();
      text := content[fields[i].0..fields[i].1];
    }

    lemma FieldsAreTheTexts()
      requires Valid()
      ensures Within(content, fields) && Texts(content, fields) == Fields(content, delimiter)
    {
      SpansAreAllRuns(content, delimiter);
      AllRunsIsUnique(content, delimiter, fields, Spans(content, delimiter, 0));
      TextsOfSpans(content, delimiter, 0);
      assert content[0..] == content;
    }
  }
}
