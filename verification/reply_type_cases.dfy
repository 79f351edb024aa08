/** Worked cases of the reply-type rewrite on concrete event types. */
module ReplyTypeCases {
  import opened ReplyTypes

  /** Worked case: "chat.get-update" is answered as "chat.update". */
  lemma ReplyTypeRequestExample()
    ensures ReplyType("chat.get-update") == "chat.update"
  {
    ReplyTypeOfRequest("chat", "");
    assert "chat" + [Separator] + GetUpdate + "" == "chat" + [Separator] + GetUpdate == "chat.get-update";
    assert "chat" + [Separator] + Update + "" == "chat" + [Separator] + Update == "chat.update";
  }

  /** Worked case: "a.get-update.b" is answered as "a.update.b". */
  lemma ReplyTypeInnerRequestExample()
    ensures ReplyType("a.get-update.b") == "a.update.b"
  {
    ReplyTypeOfRequest("a", ".b");
    assert "a" + [Separator] + GetUpdate + ".b" == "a.get-update.b";
    assert "a" + [Separator] + Update + ".b" == "a.update.b";
  }

  /** Worked case: a type with no '.' is answered under itself, even when it
      is "get-update". */
  lemma ReplyTypeSingleSegmentExample()
    ensures ReplyType("get-update") == "get-update"
  {
  }

  /** Worked case: "get-update" as the first segment is not rewritten. */
  lemma ReplyTypeFirstSegmentExample()
    ensures ReplyType("get-update.chat") == "get-update.chat"
  {
    SegmentsOfTwoPlusTail("get-update", "chat", "");
    assert "get-update" + [Separator] + "chat" + "" == "get-update.chat";
    ReplyTypeChangedIff("get-update.chat");
  }

  /** Worked case: "get-update" as the third segment is not rewritten. */
  lemma ReplyTypeThirdSegmentExample()
    ensures ReplyType("a.b.get-update") == "a.b.get-update"
  {
  }
}
