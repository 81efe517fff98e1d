/** The objects and texts of subscriptions in terms of their keys and characters. */
module SubscriptionText {
  import opened Text
  import opened SubscriptionCodec

  /** The object lists each field once, under its own name, and an empty instId or instType not at all. */
  lemma FieldsExactly(sub: Subscription, key: string, value: string)
    ensures (key, value) in ToJson(sub) <==>
            || (key == "channel" && value == sub.channel)
            || (key == "instId" && value == sub.instId && value != "")
            || (key == "instType" && value == sub.instType && value != "")
    ensures forall i, j :: 0 <= i < j < |ToJson(sub)| ==> ToJson(sub)[i].0 != ToJson(sub)[j].0
  {
    var id, kind := Optional("instId", sub.instId), Optional("instType", sub.instType);
    assert ToJson(sub) == [("channel", sub.channel)] + id + kind;
    assert (key, value) in id <==> key == "instId" && value == sub.instId && value != "";
    assert (key, value) in kind <==> key == "instType" && value == sub.instType && value != "";
    assert "channel" != "instId" && |"instId"| != |"instType"| && "channel" != "instType";
  }

  /** Characters that stand for themselves inside a string. */
  predicate Verbatim(s: string) {
    forall i :: 0 <= i < |s| ==> s[i] as int >= 32 && s[i] != '\"' && s[i] != '\\'
  }

  lemma {:induction false} EscapedVerbatim(s: string)
    requires Verbatim(s)
    ensures Escaped(s) == s
  {
    if s != "" {
      EscapedVerbatim(s[1..]);
      assert [s[0]] + s[1..] == s;
    }
  }

  /** One field of an object as text. */
  function Member(key: string, value: string): string { "\"" + key + "\":\"" + value + "\"" }

  lemma MemberWritten(key: string, value: string, rest: string)
    requires Verbatim(key) && Verbatim(value)
    ensures Quoted(key) + [':'] + Quoted(value) + rest == Member(key, value) + rest
  {
    EscapedVerbatim(key);
    EscapedVerbatim(value);
  }

  /** A further field in front of the end of an object, unless it is empty. */
  function Listed(key: string, value: string, end: string): string {
    if value == "" then end else "," + (Member(key, value) + end)
  }

  /** How an object goes on behind a field: a closing brace, or a comma and the remaining fields. */
  function Rest(fields: Fields): string {
    if fields == [] then ['}'] else [','] + WriteFields(fields)
  }

  lemma RestListed(key: string, value: string, others: Fields)
    requires Verbatim(key) && Verbatim(value)
    ensures Rest(Optional(key, value) + others) == Listed(key, value, Rest(others))
  {
    MemberWritten(key, value, Rest(others));
    if value == "" {
      assert Optional(key, value) + others == others;
    } else {
      assert (Optional(key, value) + others)[1..] == others;
    }
  }

  lemma ObjectWritten(key: string, value: string, others: Fields)
    requires Verbatim(key) && Verbatim(value)
    ensures Dump([(key, value)] + others) == "{" + (Member(key, value) + Rest(others))
  {
    MemberWritten(key, value, Rest(others));
    assert ([(key, value)] + others)[1..] == others;
  }

  lemma NamesVerbatim()
    ensures Verbatim("channel") && Verbatim("instId") && Verbatim("instType")
  {
  }

  /** The text that is compared and sent for a subscription of ordinary characters. */
  lemma RequestTextExactly(sub: Subscription)
    requires Verbatim(sub.channel) && Verbatim(sub.instId) && Verbatim(sub.instType)
    ensures RequestText(sub) ==
            "{" + (Member("channel", sub.channel) + Listed("instId", sub.instId, Listed("instType", sub.instType, "}")))
  {
    var id, kind := Optional("instId", sub.instId), Optional("instType", sub.instType);
    NamesVerbatim();
    Associates([("channel", sub.channel)], id, kind);
    Associates(id, kind, []);
    ObjectWritten("channel", sub.channel, id + kind);
    RestListed("instId", sub.instId, kind);
    RestListed("instType", sub.instType, []);
    assert kind + [] == kind;
  }
}
