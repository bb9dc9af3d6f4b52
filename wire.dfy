// What the firmware puts on the wire: `key=value` pairs joined with '&' (the
// application/x-www-form-urlencoded shape, without any escaping) and MQTT topic names
// whose levels are separated by '/' (section 4.7 of MQTT 3.1.1).
module Wire {
  import opened Text

  datatype Field = Field(key: string, value: string)

  /** `key + "=" + value`. */
  function PairText(f: Field): string
  {
    f.key + "=" + f.value
  }

  function PairTexts(fs: seq<Field>): (r: seq<string>)
    ensures |r| == |fs| && forall i :: 0 <= i < |fs| ==> r[i] == PairText(fs[i])
  {
    if fs == [] then [] else [PairText(fs[0])] + PairTexts(fs[1..])
  }

  /** The pairs joined with '&', in order, nothing escaped. */
  function Encode(fs: seq<Field>): string
  {
    Join(PairTexts(fs), '&')
  }

  /** Every key and value is free of the pair separator. */
  predicate Unescaped(fs: seq<Field>)
  {
    forall i :: 0 <= i < |fs| ==> '&' !in fs[i].key && '&' !in fs[i].value
  }

  /** Keys of the pairs, in order. */
  function Keys(fs: seq<Field>): (ks: seq<string>)
    ensures |ks| == |fs| && forall i :: 0 <= i < |fs| ==> ks[i] == fs[i].key
  {
    if fs == [] then [] else [fs[0].key] + Keys(fs[1..])
  }

  /** The channel field names `field1`, `field2`, ...: "field" followed by the number. */
  function FieldKey(n: nat): string
  {
    "field" + Digits(n)
  }

  /** Lower-case ASCII letters and digits only. */
  predicate Word(s: string)
  {
    forall i :: 0 <= i < |s| ==> IsDigit(s[i]) || 'a' <= s[i] <= 'z'
  }

  lemma {:induction false} FieldKeyWord(n: nat)
    ensures Word(FieldKey(n))
  {
    var k := FieldKey(n);
    forall i | 0 <= i < |k|
      ensures IsDigit(k[i]) || 'a' <= k[i] <= 'z'
    {
      if i >= 5 {
        assert k[i] == Digits(n)[i - 5];
      }
    }
  }

  /** Distinct numbers give distinct field names. */
  lemma {:induction false} FieldKeyInjective(m: nat, n: nat)
    ensures FieldKey(m) == FieldKey(n) <==> m == n
  {
    if FieldKey(m) == FieldKey(n) {
      assert FieldKey(m)[5..] == Digits(m);
      assert FieldKey(n)[5..] == Digits(n);
      ParseNatDigits(m);
      ParseNatDigits(n);
    }
  }

  /** Values sent as `field1`, `field2`, ... in order. */
  function Numbered(vs: seq<string>): (fs: seq<Field>)
    ensures |fs| == |vs| && forall i :: 0 <= i < |vs| ==> fs[i] == Field(FieldKey(i + 1), vs[i])
  {
    seq(|vs|, i requires 0 <= i < |vs| => Field(FieldKey(i + 1), vs[i]))
  }

  /** Numbered values free of '&' split back into one `fieldN=value` part each, in order. */
  lemma {:induction false} SplitNumbered(vs: seq<string>)
    requires |vs| >= 1 && forall i :: 0 <= i < |vs| ==> '&' !in vs[i]
    ensures var parts := Split(Encode(Numbered(vs)), '&');
      |parts| == |vs| && forall i :: 0 <= i < |vs| ==> parts[i] == FieldKey(i + 1) + "=" + vs[i]
  {
    var fs := Numbered(vs);
    forall i | 0 <= i < |fs|
      ensures '&' !in fs[i].key && '&' !in fs[i].value
    {
      FieldKeyWord(i + 1);
    }
    SplitEncode(fs);
  }

  /** A '&' in the last of the numbered values leaks: the text splits into more parts than there are values. */
  lemma {:induction false} NumberedLeaks(vs: seq<string>)
    requires |vs| >= 1 && '&' in vs[|vs| - 1]
    requires forall i :: 0 <= i < |vs| - 1 ==> '&' !in vs[i]
    ensures |Split(Encode(Numbered(vs)), '&')| > |vs|
  {
    var fs := Numbered(vs);
    forall i | 0 <= i < |fs|
      ensures '&' !in fs[i].key
    {
      FieldKeyWord(i + 1);
    }
    SplitEncodeLeaks(fs);
  }

  /** Values sent under the given keys, pairwise and in order. */
  function Named(ks: seq<string>, vs: seq<string>): (fs: seq<Field>)
    requires |ks| == |vs|
    ensures |fs| == |vs| && forall i :: 0 <= i < |vs| ==> fs[i] == Field(ks[i], vs[i])
  {
    seq(|vs|, i requires 0 <= i < |vs| => Field(ks[i], vs[i]))
  }

  /** Keys and values free of '&' split back into one `key=value` part each, in order. */
  lemma {:induction false} SplitNamed(ks: seq<string>, vs: seq<string>)
    requires |ks| == |vs| >= 1
    requires forall i :: 0 <= i < |vs| ==> '&' !in ks[i] && '&' !in vs[i]
    ensures var parts := Split(Encode(Named(ks, vs)), '&');
      |parts| == |vs| && forall i :: 0 <= i < |vs| ==> parts[i] == ks[i] + "=" + vs[i]
  {
    SplitEncode(Named(ks, vs));
  }

  lemma {:induction false} PairTextNoSep(f: Field)
    requires '&' !in f.key && '&' !in f.value
    ensures '&' !in PairText(f)
  {
    var t := PairText(f);
    forall i | 0 <= i < |t|
      ensures t[i] != '&'
    {
      if i < |f.key| {
        assert t[i] == f.key[i];
      } else if i > |f.key| {
        assert t[i] == f.value[i - |f.key| - 1];
      }
    }
  }

  /** Splitting an encoding at '&' gives back the pair texts, one per field. */
  lemma {:induction false} SplitEncode(fs: seq<Field>)
    requires |fs| >= 1 && Unescaped(fs)
    ensures Split(Encode(fs), '&') == PairTexts(fs)
  {
    var ps := PairTexts(fs);
    forall i | 0 <= i < |ps|
      ensures '&' !in ps[i]
    {
      PairTextNoSep(fs[i]);
    }
    SplitJoin(ps, '&');
  }

  /** A '&' inside the last value is not escaped: the text splits into more parts than there are fields. */
  lemma {:induction false} SplitEncodeLeaks(fs: seq<Field>)
    requires |fs| >= 1 && Unescaped(fs[..|fs| - 1]) && '&' !in fs[|fs| - 1].key && '&' in fs[|fs| - 1].value
    ensures |Split(Encode(fs), '&')| > |fs|
  {
    var last := PairText(fs[|fs| - 1]);
    assert '&' in last by {
      var j :| 0 <= j < |fs[|fs| - 1].value| && fs[|fs| - 1].value[j] == '&';
      assert last[|fs[|fs| - 1].key| + 1 + j] == '&';
    }
    if |fs| == 1 {
      SplitMany(last, '&');
    } else {
      var first := PairText(fs[0]);
      PairTextNoSep(fs[0]);
      assert PairTexts(fs)[1..] == PairTexts(fs[1..]);
      assert Encode(fs) == first + ['&'] + Encode(fs[1..]);
      SplitAfter(first, Encode(fs[1..]), '&');
      assert fs[1..][..|fs[1..]| - 1] == fs[1..|fs| - 1];
      SplitEncodeLeaks(fs[1..]);
    }
  }

  // ---------------------------------------------------------------- topics

  /** ThingSpeak-style publish topic of a channel. */
  function PublishTopic(channel: string): string
  {
    "channels/" + channel + "/publish"
  }

  function SubscribeTopic(channel: string): string
  {
    "channels/" + channel + "/subscribe"
  }

  lemma {:induction false} JoinThree(a: string, b: string, c: string, sep: char)
    ensures Join([a, b, c], sep) == a + [sep] + b + [sep] + c
  {
    assert [a, b, c][1..] == [b, c];
    assert [b, c][1..] == [c];
    assert Join([c], sep) == c;
    assert Join([b, c], sep) == b + [sep] + c;
    assert Join([a, b, c], sep) == a + [sep] + (b + [sep] + c);
  }

  /** A channel name without '/' makes a three-level topic whose middle level is the channel. */
  lemma {:induction false} TopicLevels(channel: string)
    requires '/' !in channel
    ensures Split(PublishTopic(channel), '/') == ["channels", channel, "publish"]
    ensures Split(SubscribeTopic(channel), '/') == ["channels", channel, "subscribe"]
  {
    JoinThree("channels", channel, "publish", '/');
    JoinThree("channels", channel, "subscribe", '/');
    assert PublishTopic(channel) == "channels" + ['/'] + channel + ['/'] + "publish";
    assert SubscribeTopic(channel) == "channels" + ['/'] + channel + ['/'] + "subscribe";
    assert '/' !in "channels" && '/' !in "publish" && '/' !in "subscribe";
    SplitJoin(["channels", channel, "publish"], '/');
    SplitJoin(["channels", channel, "subscribe"], '/');
  }

  /** Publish and subscribe topics of a channel never coincide, and each determines the channel. */
  lemma {:induction false} TopicsDistinct(a: string, b: string)
    requires '/' !in a && '/' !in b
    ensures PublishTopic(a) != SubscribeTopic(b)
    ensures PublishTopic(a) == PublishTopic(b) <==> a == b
  {
    TopicLevels(a);
    TopicLevels(b);
    assert "publish" != "subscribe";
  }
}
