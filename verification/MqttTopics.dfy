/**
 The MQTT topics of bus messages: printing the topic of a message, the two filters an
 endpoint subscribes with, and reading message id and sender back from a topic.
 */
module MqttTopics {
  import opened Basics

  const PREFIX: string := "eagi/bus/"

  /** Message id and source read from a topic. */
  datatype Parsed = Parsed(cls: string, mth: string, source: string)

  predicate NoSlash(s: string) { forall i :: 0 <= i < |s| ==> s[i] != '/' }

  /** Names of identifiers use none of the characters topics give a meaning to. */
  predicate Encodable(s: string) { forall i :: 0 <= i < |s| ==> s[i] != '/' && s[i] != '+' && s[i] != '#' }

  predicate Name(s: string) { s != "" && Encodable(s) }

  /** The name in the last topic level: the target's, or a placeholder for a broadcast. */
  function TargetName(target: Option<string>): string { if target.Some? then target.value else "_" }

  function Topic(cls: string, mth: string, source: string, target: Option<string>): string {
    PREFIX + (cls + "/" + (mth + "/" + (source + "/" + TargetName(target))))
  }

  function Filter(cls: string, mth: string, uid: string, broadcast: bool): string {
    PREFIX + (cls + "/" + (mth + "/" + ("+" + "/" + if broadcast then "_" else uid)))
  }

  // Topic levels and filter matching ------------------------------------------------------

  function Levels(s: string): (r: seq<string>)
    ensures r != []
  {
    if s == "" then [""]
    else if s[0] == '/' then [""] + Levels(s[1..])
    else var r := Levels(s[1..]); [[s[0]] + r[0]] + r[1..]
  }

  /** Level by level; a plus sign in the filter stands for any one level. */
  predicate LevelsMatch(filter: seq<string>, topic: seq<string>) {
    && |filter| == |topic|
    && forall i :: 0 <= i < |filter| ==> filter[i] == "+" || filter[i] == topic[i]
  }

  predicate Matches(filter: string, topic: string) { LevelsMatch(Levels(filter), Levels(topic)) }

  lemma {:induction false} LevelsCons(a: string, b: string)
    requires NoSlash(a)
    ensures Levels(a + "/" + b) == [a] + Levels(b)
    decreases |a|
  {
    var s := a + "/" + b;
    if a == "" {
      assert s[1..] == b;
    } else {
      assert s[1..] == a[1..] + "/" + b && s[0] == a[0];
      LevelsCons(a[1..], b);
      assert [a[0]] + a[1..] == a;
    }
  }

  lemma {:induction false} LevelsOne(a: string)
    requires NoSlash(a)
    ensures Levels(a) == [a]
    decreases |a|
  {
    if a != "" {
      LevelsOne(a[1..]);
      assert [a[0]] + a[1..] == a;
    }
  }

  lemma {:induction false} LevelsOfFour(a: string, b: string, c: string, d: string)
    requires NoSlash(a) && NoSlash(b) && NoSlash(c) && NoSlash(d)
    ensures Levels(PREFIX + (a + "/" + (b + "/" + (c + "/" + d)))) == ["eagi", "bus", a, b, c, d]
  {
    var rest := a + "/" + (b + "/" + (c + "/" + d));
    assert PREFIX == "eagi" + "/" + ("bus" + "/");
    Assoc("eagi" + "/", "bus" + "/", rest);
    LevelsCons("eagi", "bus" + "/" + rest);
    LevelsCons("bus", rest);
    LevelsCons(a, b + "/" + (c + "/" + d));
    LevelsCons(b, c + "/" + d);
    LevelsCons(c, d);
    LevelsOne(d);
  }

  /** The levels of a topic, and of the two filters that match it: fixed ones, message id, source, target. */
  lemma TopicLevels(cls: string, mth: string, source: string, target: Option<string>, broadcast: bool)
    requires NoSlash(cls) && NoSlash(mth) && NoSlash(source) && (target.Some? ==> NoSlash(target.value))
    ensures Levels(Topic(cls, mth, source, target)) ==
            ["eagi", "bus", cls, mth, source, if target.Some? then target.value else "_"]
    ensures Levels(Filter(cls, mth, source, broadcast)) ==
            ["eagi", "bus", cls, mth, "+", if broadcast then "_" else source]
  {
    LevelsOfFour(cls, mth, source, TargetName(target));
    LevelsOfFour(cls, mth, "+", if broadcast then "_" else source);
  }

  // Reading topics ------------------------------------------------------------------------

  /** Text before and after the first slash; everything and nothing when there is none. */
  function SplitFirst(s: string): (string, string) {
    if s == "" then ("", "")
    else if s[0] == '/' then ("", s[1..])
    else var (head, tail) := SplitFirst(s[1..]); ([s[0]] + head, tail)
  }

  predicate HasUid(clientUid: string, uid: string) { uid == "_" || uid == clientUid }

  function Parse(clientUid: string, topic: string): Option<Parsed> {
    if PREFIX <= topic then
      var (cls, clsTail) := SplitFirst(topic[|PREFIX|..]);
      var (mth, mthTail) := SplitFirst(clsTail);
      var (source, target) := SplitFirst(mthTail);
      if cls != "" && mth != "" && HasUid(clientUid, target) && Encodable(cls) && Encodable(mth) && Encodable(source)
      then Some(Parsed(cls, mth, source)) else None
    else None
  }

  lemma {:induction false} SplitFirstOf(a: string, b: string)
    requires NoSlash(a)
    ensures SplitFirst(a + "/" + b) == (a, b)
    decreases |a|
  {
    var s := a + "/" + b;
    if a == "" {
      assert s[1..] == b;
    } else {
      assert s[0] == a[0] && s[1..] == a[1..] + "/" + b;
      SplitFirstOf(a[1..], b);
      assert [a[0]] + a[1..] == a;
    }
  }

  lemma {:induction false} SplitFirstJoins(s: string)
    ensures var (head, tail) := SplitFirst(s);
            NoSlash(head) && (tail != "" ==> s == head + "/" + tail)
    decreases |s|
  {
    if s != "" && s[0] != '/' { SplitFirstJoins(s[1..]); }
  }

  /** Reading inverts printing. */
  lemma ParseOfTopic(uid: string, cls: string, mth: string, source: string, target: string)
    requires Name(cls) && Name(mth) && Encodable(source)
    ensures Parse(uid, PREFIX + (cls + "/" + (mth + "/" + (source + "/" + target)))) ==
            if HasUid(uid, target) then Some(Parsed(cls, mth, source)) else None
  {
    var rest := cls + "/" + (mth + "/" + (source + "/" + target));
    assert (PREFIX + rest)[|PREFIX|..] == rest;
    SplitFirstOf(cls, mth + "/" + (source + "/" + target));
    SplitFirstOf(mth, source + "/" + target);
    SplitFirstOf(source, target);
  }

  /** Exactly which topics an endpoint reads as a message, and how. */
  lemma ParseIff(uid: string, topic: string, p: Parsed)
    requires uid != ""
    ensures Parse(uid, topic) == Some(p) <==>
            && Name(p.cls) && Name(p.mth) && Encodable(p.source)
            && (topic == PREFIX + (p.cls + "/" + (p.mth + "/" + (p.source + "/" + "_")))
                || topic == PREFIX + (p.cls + "/" + (p.mth + "/" + (p.source + "/" + uid))))
  {
    if Parse(uid, topic) == Some(p) {
      var rest := topic[|PREFIX|..];
      assert topic == PREFIX + rest;
      SplitFirstJoins(rest);
      var (cls, clsTail) := SplitFirst(rest);
      SplitFirstJoins(clsTail);
      var (mth, mthTail) := SplitFirst(clsTail);
      SplitFirstJoins(mthTail);
      var (source, target) := SplitFirst(mthTail);
      assert target != "" && mthTail == source + "/" + target;
      assert clsTail == mth + "/" + mthTail && rest == cls + "/" + clsTail;
    }
    if Name(p.cls) && Name(p.mth) && Encodable(p.source) {
      ParseOfTopic(uid, p.cls, p.mth, p.source, "_");
      ParseOfTopic(uid, p.cls, p.mth, p.source, uid);
    }
  }

  // Main results --------------------------------------------------------------------------

  predicate ClientName(s: string) { Name(s) && s != "_" }

  predicate TargetOk(target: Option<string>) { target.Some? ==> ClientName(target.value) }

  /** Whether a subscription for one message matches the topic of another. */
  lemma FilterMatchesIff(cls: string, mth: string, uid: string, broadcast: bool,
                         cls': string, mth': string, source: string, target: Option<string>)
    requires Name(cls) && Name(mth) && ClientName(uid)
    requires Name(cls') && Name(mth') && ClientName(source) && TargetOk(target)
    ensures Matches(Filter(cls, mth, uid, broadcast), Topic(cls', mth', source, target)) <==>
            cls == cls' && mth == mth' && if broadcast then target.None? else target == Some(uid)
  {
    var last := if broadcast then "_" else uid;
    LevelsOfFour(cls, mth, "+", last);
    LevelsOfFour(cls', mth', source, TargetName(target));
    var f, t := ["eagi", "bus", cls, mth, "+", last], ["eagi", "bus", cls', mth', source, TargetName(target)];
    assert cls[0] != '+' && mth[0] != '+' && last[0] != '+';
    assert LevelsMatch(f, t) <==> f[2] == t[2] && f[3] == t[3] && f[5] == t[5];
  }

  /**
   A topic printed by `source` for a message and a target matches one of the receiver's two
   subscriptions for that message exactly when it is a broadcast or meant for the receiver,
   and exactly then the receiver reads back the message id and the source.
   */
  lemma DeliveredIffAddressed(cls: string, mth: string, source: string, target: Option<string>, uid: string)
    requires Name(cls) && Name(mth) && ClientName(source) && ClientName(uid) && TargetOk(target)
    ensures var topic := Topic(cls, mth, source, target);
            var matches := Matches(Filter(cls, mth, uid, true), topic) || Matches(Filter(cls, mth, uid, false), topic);
            && (matches <==> target.None? || target == Some(uid))
            && Parse(uid, topic) == if matches then Some(Parsed(cls, mth, source)) else None
  {
    FilterMatchesIff(cls, mth, uid, true, cls, mth, source, target);
    FilterMatchesIff(cls, mth, uid, false, cls, mth, source, target);
    ParseOfTopic(uid, cls, mth, source, TargetName(target));
  }

  /** Appending one by one or from the right gives the same text. */
  lemma AppendsGroup(p: string, a: string, s: string, b: string, t: string, c: string, u: string, d: string)
    ensures p + a + s + b + t + c + u + d == p + (a + s + (b + t + (c + u + d)))
  {
    Assoc(p, a, s);
    Assoc(p + a + s, b, t);
    Assoc(p + a + s + b + t, c, u);
    Assoc(p + a + s + b + t, c + u, d);
    Assoc(p + a + s, b + t, c + u + d);
    Assoc(p, a + s, b + t + (c + u + d));
  }

  lemma TopicText(p: string, cls: string, mth: string, uid: string, target: Option<string>, text: string)
    requires text == if target.Some? then p + cls + "/" + mth + "/" + uid + "/" + target.value
                     else p + cls + "/" + mth + "/" + uid + "/_"
    ensures text == p + (cls + "/" + (mth + "/" + (uid + "/" + TargetName(target)))) && p <= text
  {
    var before := p + cls + "/" + mth + "/" + uid;
    Regroup(before + "/_", before, "/_", "/", "_");
    AppendsGroup(p, cls, "/", mth, "/", uid, "/", TargetName(target));
  }

  lemma FilterText(p: string, cls: string, mth: string, uid: string, broadcast: bool, text: string)
    requires text == if broadcast then p + cls + "/" + mth + "/+/_" else p + cls + "/" + mth + "/+/" + uid
    ensures text == p + (cls + "/" + (mth + "/" + ("+" + "/" + if broadcast then "_" else uid))) && p <= text
  {
    var before := p + cls + "/" + mth;
    Regroup(before + "/+/_", before, "/+/_", "/+/", "_");
    Regroup(before + "/+/", before, "/+/", "/+", "/");
    Regroup(before + "/+", before, "/+", "/", "+");
    AppendsGroup(p, cls, "/", mth, "/", "+", "/", if broadcast then "_" else uid);
  }

  class PahoMqttConnection {
    const clientUid: string
    var tempTopic: string

    /** The scratch string is empty or starts with the prefix. */
    predicate Valid() reads this { tempTopic == "" || PREFIX <= tempTopic }

    constructor (uid: string)
      ensures Valid() && clientUid == uid
    {
      clientUid, tempTopic := uid, "";
    }

    method MsgIdToSubscrTopic(cls: string, mth: string, source: string, broadcast: bool) returns (topic: string)
      requires Valid()
      modifies this
      ensures Valid() && tempTopic == topic == Filter(cls, mth, source, broadcast)
    {
      if tempTopic == "" {
        tempTopic := PREFIX;
      } else {
        tempTopic := tempTopic[..|PREFIX|];
      }
      tempTopic := tempTopic + cls;
      tempTopic := tempTopic + "/";
      tempTopic := tempTopic + mth;
      if broadcast {
        tempTopic := tempTopic + "/+/_";
      } else {
        tempTopic := tempTopic + "/+/";
        tempTopic := tempTopic + source;
      }
      topic := tempTopic;
      FilterText(PREFIX, cls, mth, source, broadcast, topic);
    }

    method MsgIdToTopic(cls: string, mth: string, target: Option<string>) returns (topic: string)
      requires Valid()
      modifies this
      ensures Valid() && tempTopic == topic == Topic(cls, mth, clientUid, target)
    {
      if tempTopic == "" {
        tempTopic := PREFIX;
      } else {
        tempTopic := tempTopic[..|PREFIX|];
      }
      tempTopic := tempTopic + cls;
      tempTopic := tempTopic + "/";
      tempTopic := tempTopic + mth;
      tempTopic := tempTopic + "/";
      tempTopic := tempTopic + clientUid;
      if target.Some? {
        tempTopic := tempTopic + "/";
        tempTopic := tempTopic + target.value;
      } else {
        tempTopic := tempTopic + "/_";
      }
      topic := tempTopic;
      TopicText(PREFIX, cls, mth, clientUid, target, topic);
    }
  }
}
