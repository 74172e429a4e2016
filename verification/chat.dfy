/** The support chat widget: a chat box that is shown or hidden, the keyboard and mouse
    events that open and close it, and the canned answers to the frequent questions. */
module Chat {
  import opened Wrappers
  import opened Text

  /** The two classes the widget toggles on the chat box: `hidden` and `chat-open`. */
  datatype ChatBox = ChatBox(hidden: bool, chatOpen: bool)

  /** `isOpen`: the box is open exactly when it is not hidden; on a box whose classes
      agree, that is when it carries `chat-open`. */
  function IsOpen(c: ChatBox): (open: bool)
    ensures Consistent(c) ==> (open <==> c.chatOpen)
  {
    !c.hidden
  }

  /** The two classes agree. */
  predicate Consistent(c: ChatBox) {
    c.chatOpen == !c.hidden
  }

  /** `open`: drop `hidden`, add `chat-open`. */
  function Open(c: ChatBox): (r: ChatBox)
    ensures IsOpen(r) && Consistent(r)
  {
    c.(hidden := false, chatOpen := true)
  }

  /** `close`: add `hidden`, drop `chat-open`. */
  function Close(c: ChatBox): (r: ChatBox)
    ensures !IsOpen(r) && Consistent(r)
  {
    c.(hidden := true, chatOpen := false)
  }

  /** Opening and closing are idempotent and each undoes the other. */
  lemma OpenCloseRoundTrip(c: ChatBox)
    ensures Open(Open(c)) == Open(c) && Close(Close(c)) == Close(c)
    ensures Close(Open(c)) == Close(c) && Open(Close(c)) == Open(c)
    ensures Consistent(c) && IsOpen(c) ==> Open(c) == c
    ensures Consistent(c) && !IsOpen(c) ==> Close(c) == c
  {
  }

  /** `handleEscapeKey`: Escape closes an open chat; any other key, or Escape on a
      hidden chat, changes nothing. */
  function HandleEscapeKey(c: ChatBox, key: string): (r: ChatBox)
    ensures key == "Escape" ==> !IsOpen(r)
    ensures key != "Escape" || !IsOpen(c) ==> r == c
    ensures key == "Escape" && IsOpen(c) ==> r == Close(c)
  {
    if key == "Escape" && IsOpen(c) then Close(c) else c
  }

  /** `handleOutsideClick`: a click outside both the chat box and the chat icon closes an
      open chat; any other click changes nothing. */
  function HandleOutsideClick(c: ChatBox, inChatBox: bool, onChatIcon: bool): (r: ChatBox)
    ensures IsOpen(c) && !inChatBox && !onChatIcon ==> r == Close(c)
    ensures !IsOpen(c) || inChatBox || onChatIcon ==> r == c
    ensures !inChatBox && !onChatIcon ==> !IsOpen(r)
  {
    if IsOpen(c) && !inChatBox && !onChatIcon then Close(c) else c
  }

  /** Enter or Space on the chat icon opens the chat; other keys do nothing. */
  function HandleIconKey(c: ChatBox, key: string): (r: ChatBox)
    ensures key == "Enter" || key == " " ==> IsOpen(r)
    ensures key != "Enter" && key != " " ==> r == c
  {
    if key == "Enter" || key == " " then Open(c) else c
  }

  /** Escape and outside clicks keep the two classes in agreement. */
  lemma EventsKeepConsistent(c: ChatBox, key: string, inChatBox: bool, onChatIcon: bool)
    requires Consistent(c)
    ensures Consistent(HandleEscapeKey(c, key))
    ensures Consistent(HandleOutsideClick(c, inChatBox, onChatIcon))
    ensures Consistent(HandleIconKey(c, key))
  {
  }

  // Each long text below is written as its first word followed by the rest. The text is
  // the same; the split lets proofs about its first characters look at a short literal.

  /** The answer given to a question the widget does not know. */
  const Fallback := "I'm " + "sorry, I don't have an answer for that question right now. Please contact our support team for personalized assistance."

  const OilySkin := "What's " + "the best skincare routine for oily skin?"
  const Parabens := "Do " + "your products contain parabens?"
  const CrueltyFree := "Are " + "your products cruelty-free?"
  const Shipping := "How " + "long does shipping take?"
  const Returns := "Can " + "I return a product?"

  /** The canned answers, keyed by question text. */
  const Responses: map<string, string> := map[
    OilySkin := "For " + "oily skin, cleanse twice daily with a gentle foaming cleanser, use a BHA exfoliant 2-3 times per week, apply an oil-free moisturizer, and never skip broad-spectrum SPF 30+ sunscreen during the day.",
    Parabens := "No, " + "all our products are completely paraben-free! We use natural preservatives and safe alternatives to ensure product safety without compromising your skin's health.",
    CrueltyFree := "Absolutely! " + "We are 100% cruelty-free and never test on animals. We're also certified by Leaping Bunny, the gold standard for cruelty-free cosmetics.",
    Shipping := "Standard " + "shipping takes 3-5 business days within the country, 7-14 days internationally. We also offer express shipping (1-2 days) and same-day delivery in select cities.",
    Returns := "Yes! " + "We offer a 30-day satisfaction guarantee. You can return unopened products within 30 days for a full refund, and opened products within 15 days if you're not completely satisfied."
  ]

  /** Each question starts with a capital letter and ends with '?'. */
  lemma QuestionsAreTrimmed(q: string)
    requires q in Responses
    ensures |q| > 0 && !IsJsSpace(q[0]) && !IsJsSpace(q[|q| - 1])
  {
    assert q == OilySkin || q == Parabens || q == CrueltyFree || q == Shipping || q == Returns;
    if q == OilySkin {
      assert q[0] == 'W' && q[|q| - 1] == '?';
    } else if q == Parabens {
      assert q[0] == 'D' && q[|q| - 1] == '?';
    } else if q == CrueltyFree {
      assert q[0] == 'A' && q[|q| - 1] == '?';
    } else if q == Shipping {
      assert q[0] == 'H' && q[|q| - 1] == '?';
    } else {
      assert q[0] == 'C' && q[|q| - 1] == '?';
    }
  }

  /** No answer is empty or starts as the apology does. */
  lemma AnswersDifferFromFallback(q: string)
    requires q in Responses
    ensures |Responses[q]| > 0 && Responses[q][0] != Fallback[0]
  {
    assert q == OilySkin || q == Parabens || q == CrueltyFree || q == Shipping || q == Returns;
    assert Fallback[0] == 'I';
    if q == OilySkin {
      assert Responses[q][0] == 'F';
    } else if q == Parabens {
      assert Responses[q][0] == 'N';
    } else if q == CrueltyFree {
      assert Responses[q][0] == 'A';
    } else if q == Shipping {
      assert Responses[q][0] == 'S';
    } else {
      assert Responses[q][0] == 'Y';
    }
  }

  /** `handleQuestionClick`: the clicked element's text (absent text reads as empty) is
      trimmed and looked up; a missing or empty answer falls back to the apology. */
  function Answer(textContent: Option<string>): (a: string)
    ensures a != ""
    ensures var q := Trim(textContent.GetOr(""));
            if q in Responses && Responses[q] != "" then a == Responses[q] else a == Fallback
  {
    var q := Trim(textContent.GetOr(""));
    if q in Responses && Responses[q] != "" then Responses[q] else Fallback
  }

  /** Every known question is answered with its own answer, whatever white space the
      page puts around the question's text. */
  lemma KnownQuestionAnswered(pre: string, q: string, post: string)
    requires q in Responses
    requires forall k :: 0 <= k < |pre| ==> IsJsSpace(pre[k])
    requires forall k :: 0 <= k < |post| ==> IsJsSpace(post[k])
    ensures Answer(Some(pre + q + post)) == Responses[q] && Responses[q] != Fallback
  {
    QuestionsAreTrimmed(q);
    AnswersDifferFromFallback(q);
    TrimRemovesPadding(pre, q, post);
  }

  /** An absent or blank text, or any question outside the list, gets the apology. */
  lemma UnknownQuestionGetsFallback(text: string)
    requires Trim(text) !in Responses
    ensures Answer(Some(text)) == Fallback
    ensures Answer(None) == Fallback
  {
    assert Trim("") == "";
    assert "" !in Responses;
  }
}
