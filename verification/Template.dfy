/** First-occurrence templating: "%s" in stream URLs and "%t" in preset commands. */
module Template {
  import opened Network

  /** Does "%" + mark stand at index i? */
  predicate MarkAt(text: string, mark: char, i: nat) {
    i + 1 < |text| && text[i] == '%' && text[i + 1] == mark
  }

  /** std::string::find of "%" + mark; the length of the text for npos. */
  function Find(text: string, mark: char): (k: nat)
    ensures k <= |text| && (k < |text| ==> MarkAt(text, mark, k))
    ensures forall i | 0 <= i < k :: !MarkAt(text, mark, i)
  {
    if text == [] then 0
    else if MarkAt(text, mark, 0) then 0
    else
      var k := Find(text[1..], mark);
      assert forall i | 1 <= i < |text| :: MarkAt(text, mark, i) <==> MarkAt(text[1..], mark, i - 1);
      1 + k
  }

  function ReplaceFirst(text: string, mark: char, value: string): string {
    var k := Find(text, mark);
    if k < |text| then text[..k] + value + text[k + 2..] else text
  }

  /** Number of occurrences. */
  function Count(text: string, mark: char): nat {
    if text == [] then 0
    else Count(text[..|text| - 1], mark) + if |text| >= 2 && MarkAt(text, mark, |text| - 2) then 1 else 0
  }

  // ------------------------------------------------- counting

  ghost predicate NoMark(text: string, mark: char) {
    forall i | 0 <= i < |text| :: !MarkAt(text, mark, i)
  }

  lemma {:induction false} CountZero(text: string, mark: char)
    ensures Count(text, mark) == 0 <==> NoMark(text, mark)
  {
    if text != [] {
      var front := text[..|text| - 1];
      CountZero(front, mark);
      assert forall i | 0 <= i < |front| - 1 :: MarkAt(front, mark, i) <==> MarkAt(text, mark, i);
    }
  }

  /** Does a "%" at the end of a and a mark at the start of b meet? */
  predicate Joins(a: string, b: string, mark: char) {
    a != [] && b != [] && a[|a| - 1] == '%' && b[0] == mark
  }

  lemma {:induction false} CountConcat(a: string, b: string, mark: char)
    ensures Count(a + b, mark) == Count(a, mark) + Count(b, mark) + if Joins(a, b, mark) then 1 else 0
  {
    if b == [] {
      assert a + b == a;
    } else {
      var front := b[..|b| - 1];
      CountConcat(a, front, mark);
      assert (a + b)[..|a + b| - 1] == a + front;
      if |b| >= 2 {
        assert (a + b)[|a + b| - 2] == b[|b| - 2];
      } else if a != [] {
        assert (a + b)[|a + b| - 2] == a[|a| - 1];
      }
    }
  }

  lemma CountMark(mark: char)
    requires mark != '%'
    ensures Count(['%', mark], mark) == 1
  {
    var t := ['%', mark];
    assert t[..1] == ['%'];
    assert Count(['%'], mark) == Count([], mark);
    assert MarkAt(t, mark, 0);
  }

  /** Text in which neither half of the mark occurs. */
  predicate Inert(value: string, mark: char) {
    value != [] && '%' !in value && mark !in value
  }

  lemma InertCount(value: string, mark: char)
    requires Inert(value, mark)
    ensures Count(value, mark) == 0
  {
    CountZero(value, mark);
    assert forall i | 0 <= i < |value| :: value[i] in value;
  }

  lemma FindSplits(text: string, mark: char)
    requires Find(text, mark) < |text|
    ensures var k := Find(text, mark);
            k + 2 <= |text| && text == text[..k] + ['%', mark] + text[k + 2..] && NoMark(text[..k], mark)
  {
    var k := Find(text, mark);
    assert MarkAt(text, mark, k);
    forall i | 0 <= i < k ensures !MarkAt(text[..k], mark, i) {
      assert !MarkAt(text, mark, i);
    }
  }

  /** A mark between two texts counts as one, an inert value as none. */
  lemma CountAround(a: string, b: string, mark: char, value: string)
    requires mark != '%' && Inert(value, mark)
    ensures Count(a + ['%', mark] + b, mark) == Count(a, mark) + 1 + Count(b, mark)
    ensures Count(a + value + b, mark) == Count(a, mark) + Count(b, mark)
  {
    hide Count;
    CountMark(mark);
    InertCount(value, mark);
    assert value[0] in value && value[|value| - 1] in value;
    CountConcat(a, ['%', mark], mark);
    CountConcat(a + ['%', mark], b, mark);
    CountConcat(a, value, mark);
    CountConcat(a + value, b, mark);
  }

  /** An inert replacement lowers the number of marks by exactly one, keeps the text on either
      side, and is the identity when there is no mark. */
  lemma ReplaceLowersCount(text: string, mark: char, value: string)
    requires mark != '%' && Inert(value, mark)
    ensures Count(text, mark) == 0 ==> ReplaceFirst(text, mark, value) == text
    ensures Count(text, mark) > 0 ==> Count(ReplaceFirst(text, mark, value), mark) == Count(text, mark) - 1
    ensures Count(text, mark) > 0 ==>
      exists a, b ::
        text == a + ['%', mark] + b && Count(a, mark) == 0 && ReplaceFirst(text, mark, value) == a + value + b
  {
    CountZero(text, mark);
    var k := Find(text, mark);
    if k < |text| {
      FindSplits(text, mark);
      var a, b := text[..k], text[k + 2..];
      CountZero(a, mark);
      hide Count, MarkAt, Inert;
      CountAround(a, b, mark, value);
      assert ReplaceFirst(text, mark, value) == a + value + b;
    }
  }

  /** The text around the first mark stays, the mark gives way to the value; without a mark nothing changes. */
  ghost predicate FirstReplaced(text: string, mark: char, value: string, result: string) {
    && (NoMark(text, mark) ==> result == text)
    && (forall a, b | text == a + ['%', mark] + b && NoMark(a, mark) :: result == a + value + b)
  }

  /** The replacement is this one and no other. */
  lemma ReplacedIff(text: string, mark: char, value: string, result: string)
    requires mark != '%'
    ensures FirstReplaced(text, mark, value, result) <==> result == ReplaceFirst(text, mark, value)
  {
    var k := Find(text, mark);
    forall a, b | text == a + ['%', mark] + b && NoMark(a, mark)
      ensures k == |a| && text[..k] == a && text[k + 2..] == b
    {
      FirstAt(text, mark, a, b);
    }
    if k < |text| { FindSplits(text, mark); }
  }

  lemma FirstAt(text: string, mark: char, a: string, b: string)
    requires mark != '%' && text == a + ['%', mark] + b && NoMark(a, mark)
    ensures Find(text, mark) == |a| && text[..|a|] == a && text[|a| + 2..] == b
  {
    assert MarkAt(text, mark, |a|);
    forall i | 0 <= i < |a| ensures !MarkAt(text, mark, i) {
      assert !MarkAt(a, mark, i);
      assert text[i + 1] == if i + 1 < |a| then a[i + 1] else '%';
    }
  }

  /** Replacing again changes nothing exactly when there was at most one mark. */
  lemma ReplaceTwice(text: string, mark: char, value: string)
    requires mark != '%' && Inert(value, mark)
    ensures ReplaceFirst(ReplaceFirst(text, mark, value), mark, value) == ReplaceFirst(text, mark, value)
            <==> Count(text, mark) <= 1
  {
    hide Count, ReplaceFirst;
    ReplaceLowersCount(text, mark, value);
    ReplaceLowersCount(ReplaceFirst(text, mark, value), mark, value);
  }

  /** get_stream_uri: the template with the first "%s" replaced in place by the server address. */
  method GetStreamUri(profileUrl: string, ifs: seq<Interface>, left: seq<Leftover>, client: Address, littleEndian: bool)
    returns (uri: string)
    requires |left| == |ifs|
    ensures uri == ReplaceFirst(profileUrl, 's', ServerIp(ifs, left, client, littleEndian))
    ensures exists ip :: IsAnswer(ifs, left, client, littleEndian, ip) && FirstReplaced(profileUrl, 's', ip, uri)
  {
    ghost var answer := ServerIp(ifs, left, client, littleEndian);
    ServerIpAnswers(ifs, left, client, littleEndian);
    ReplacedIff(profileUrl, 's', answer, ReplaceFirst(profileUrl, 's', answer));
    hide IsAnswer, ServerIp, FirstReplaced;
    uri := profileUrl;
    var it := Find(uri, 's');
    if it != |uri| {
      var ip := GetServerIpFromClientIp(ifs, left, client, littleEndian);
      uri := uri[..it] + ip + uri[it + 2..];
    }
  }

  /** For every URL and client, when the address of the chosen interface can be read or none is asked
      for: no dotted quad can complete a "%s", so one call lowers their number by one, and a second
      call changes nothing exactly when there was at most one. */
  lemma StreamUri(url: string, ifs: seq<Interface>, left: seq<Leftover>, client: Address, littleEndian: bool)
    requires |left| == |ifs| && AnswerReadable(ifs, left, client, littleEndian)
    ensures var ip := ServerIp(ifs, left, client, littleEndian);
            var uri := ReplaceFirst(url, 's', ip);
            && (Count(url, 's') == 0 ==> uri == url)
            && (Count(url, 's') > 0 ==> Count(uri, 's') == Count(url, 's') - 1)
            && (ReplaceFirst(uri, 's', ip) == uri <==> Count(url, 's') <= 1)
  {
    hide Count, ReplaceFirst, ServerIp, AnswerReadable;
    var ip := ServerIp(ifs, left, client, littleEndian);
    ServerIpChars(ifs, left, client, littleEndian);
    ReplaceLowersCount(url, 's', ip);
    ReplaceTwice(url, 's', ip);
  }

  /** And whatever the buffer held before, the number drops by exactly one if and only if that address
      can be read or none is asked for. */
  lemma StreamUriIff(url: string, ifs: seq<Interface>, left: seq<Leftover>, client: Address, littleEndian: bool)
    requires |left| == |ifs| && Count(url, 's') > 0
    ensures (forall text ::
               Count(ReplaceFirst(url, 's', ServerIp(ifs, WithText(left, text), client, littleEndian)), 's')
               == Count(url, 's') - 1)
            <==> AnswerReadable(ifs, left, client, littleEndian)
  {
    hide Count, ReplaceFirst, ServerIp, AnswerReadable;
    if AnswerReadable(ifs, left, client, littleEndian) {
      forall text
        ensures Count(ReplaceFirst(url, 's', ServerIp(ifs, WithText(left, text), client, littleEndian)), 's')
                == Count(url, 's') - 1
      {
        UnreadableAnswer(ifs, left, text, client, littleEndian);
        StreamUri(url, ifs, WithText(left, text), client, littleEndian);
      }
    } else {
      UnreadableAnswer(ifs, left, "%s", client, littleEndian);
      MarkForMark(url, 's');
      assert "%s" == ['%', 's'];
      assert ServerIp(ifs, WithText(left, "%s"), client, littleEndian) == "%s";
    }
  }

  lemma MarkForMark(text: string, mark: char)
    ensures ReplaceFirst(text, mark, ['%', mark]) == text
  {
    if Find(text, mark) < |text| { FindSplits(text, mark); }
  }
}
