/** The floating assistant chat: keyword routing of a message to one of
    the canned replies, and sending a message. */
module AIAssistant {
  import opened Wrappers
  import opened Text

  /** The five canned replies (`MOCK_RESPONSES`), by key. */
  datatype Reply = Default | Optimize | Bottleneck | Summary | Draft

  /** The suggestion chips offered under the chat. */
  const Suggestions: seq<string> := [
    "Optimize onboarding workflow",
    "Show bottleneck analysis",
    "Summarize pending approvals",
    "Draft a vacation policy rule"
  ]

  /** `getResponse`: on the lower-cased message, the first rule whose
      keyword occurs decides: 'optim'; then 'bottleneck' or 'block'; then
      'summary', 'pending' or 'approval'; then 'draft', 'rule' or 'policy';
      otherwise the default reply. */
  function GetResponse(message: string): (r: Reply)
    ensures var lower := Lower(message);
      (r == Optimize <==> Contains(lower, "optim")) &&
      (r == Bottleneck <==> !Contains(lower, "optim") && (Contains(lower, "bottleneck") || Contains(lower, "block"))) &&
      (r == Summary <==> !Contains(lower, "optim") && !(Contains(lower, "bottleneck") || Contains(lower, "block")) &&
                         (Contains(lower, "summary") || Contains(lower, "pending") || Contains(lower, "approval"))) &&
      (r == Draft <==> !Contains(lower, "optim") && !(Contains(lower, "bottleneck") || Contains(lower, "block")) &&
                       !(Contains(lower, "summary") || Contains(lower, "pending") || Contains(lower, "approval")) &&
                       (Contains(lower, "draft") || Contains(lower, "rule") || Contains(lower, "policy")))
    ensures r.Default? <==> var lower := Lower(message);
      !Contains(lower, "optim") && !Contains(lower, "bottleneck") && !Contains(lower, "block") &&
      !Contains(lower, "summary") && !Contains(lower, "pending") && !Contains(lower, "approval") &&
      !Contains(lower, "draft") && !Contains(lower, "rule") && !Contains(lower, "policy")
  {
    var lower := Lower(message);
    if Contains(lower, "optim") then Optimize
    else if Contains(lower, "bottleneck") || Contains(lower, "block") then Bottleneck
    else if Contains(lower, "summary") || Contains(lower, "pending") || Contains(lower, "approval") then Summary
    else if Contains(lower, "draft") || Contains(lower, "rule") || Contains(lower, "policy") then Draft
    else Default
  }

  /** A keyword found at a position of the lower-cased message. */
  lemma ContainsWitness(lower: string, word: string, i: int)
    requires OccursAt(lower, word, i)
    ensures Contains(lower, word)
  {
    ContainsAt(lower, word);
  }

  /** 'optim' wins over every other keyword. */
  lemma OptimFirst(message: string, i: int)
    requires OccursAt(Lower(message), "optim", i)
    ensures GetResponse(message) == Optimize
  {
    ContainsWitness(Lower(message), "optim", i);
  }

  /** The characters of an occurrence are characters of the message, in
      the same neighbourhood. */
  lemma OccurrenceChars(lower: string, word: string, i: int, k: int)
    requires OccursAt(lower, word, i) && 0 <= k < |word|
    ensures 0 <= i + k < |lower| && lower[i + k] == word[k]
  {
    assert lower[i..i + |word|][k] == word[k];
  }

  /** A keyword with a character the message lacks does not occur in it. */
  lemma MissingChar(lower: string, word: string, k: int)
    requires 0 <= k < |word| && word[k] !in lower
    ensures !Contains(lower, word)
  {
    ContainsAt(lower, word);
    if Contains(lower, word) {
      var i :| OccursAt(lower, word, i);
      OccurrenceChars(lower, word, i, k);
    }
  }

  /** A keyword with two neighbouring characters that are never neighbours
      in the message does not occur in it. */
  lemma MissingPair(lower: string, word: string, k: int)
    requires 0 <= k < |word| - 1
    requires forall i :: 0 <= i < |lower| - 1 ==> !(lower[i] == word[k] && lower[i + 1] == word[k + 1])
    ensures !Contains(lower, word)
  {
    ContainsAt(lower, word);
    if Contains(lower, word) {
      var i :| OccursAt(lower, word, i);
      OccurrenceChars(lower, word, i, k);
      OccurrenceChars(lower, word, i, k + 1);
    }
  }

  /** The character facts about each lower-cased chip text that decide
      its routing. */
  lemma LowerChip1()
    ensures Lower(Suggestions[1]) == "show bottleneck analysis"
  {
  }

  lemma Chip1Chars(s: string)
    requires s == "show bottleneck analysis"
    ensures 'p' !in s && OccursAt(s, "bottleneck", 5)
  {
  }

  lemma LowerChip2()
    ensures Lower(Suggestions[2]) == "summarize pending approvals"
  {
  }

  lemma Chip2Chars(s: string)
    requires s == "summarize pending approvals"
    ensures 't' !in s && 'b' !in s && OccursAt(s, "pending", 10)
  {
  }

  lemma LowerChip3()
    ensures Lower(Suggestions[3]) == "draft a vacation policy rule"
  {
  }

  lemma Chip3Chars(s: string)
    requires s == "draft a vacation policy rule"
    ensures 'm' !in s && 'b' !in s && 's' !in s && 'g' !in s
    ensures forall i :: 0 <= i < |s| - 1 ==> !(s[i] == 'p' && s[i + 1] == 'p')
    ensures OccursAt(s, "draft", 0)
  {
    assert forall i :: 0 <= i < |s| && i != 17 ==> s[i] != 'p';
  }

  /** The keyword tests, decided from those character facts alone. */
  lemma Chip1Keywords(s: string)
    requires 'p' !in s && OccursAt(s, "bottleneck", 5)
    ensures !Contains(s, "optim") && Contains(s, "bottleneck")
  {
    MissingChar(s, "optim", 1);
    ContainsWitness(s, "bottleneck", 5);
  }

  lemma Chip2Keywords(s: string)
    requires 't' !in s && 'b' !in s && OccursAt(s, "pending", 10)
    ensures !Contains(s, "optim") && !Contains(s, "bottleneck") && !Contains(s, "block")
    ensures Contains(s, "pending")
  {
    MissingChar(s, "optim", 2);
    MissingChar(s, "bottleneck", 2);
    MissingChar(s, "block", 0);
    ContainsWitness(s, "pending", 10);
  }

  lemma Chip3Keywords(s: string)
    requires 'm' !in s && 'b' !in s
    ensures !Contains(s, "optim") && !Contains(s, "bottleneck") && !Contains(s, "block")
  {
    MissingChar(s, "optim", 4);
    MissingChar(s, "bottleneck", 0);
    MissingChar(s, "block", 0);
  }

  lemma Chip3MoreKeywords(s: string)
    requires 's' !in s && 'g' !in s
    requires forall i :: 0 <= i < |s| - 1 ==> !(s[i] == 'p' && s[i + 1] == 'p')
    ensures !Contains(s, "summary") && !Contains(s, "pending") && !Contains(s, "approval")
  {
    MissingChar(s, "summary", 0);
    MissingChar(s, "pending", 6);
    MissingPair(s, "approval", 1);
  }

  lemma Chip1Routed()
    ensures GetResponse(Suggestions[1]) == Bottleneck
  {
    var s := Lower(Suggestions[1]);
    LowerChip1();
    Chip1Chars(s);
    Chip1Keywords(s);
  }

  lemma Chip2Routed()
    ensures GetResponse(Suggestions[2]) == Summary
  {
    var s := Lower(Suggestions[2]);
    LowerChip2();
    Chip2Chars(s);
    Chip2Keywords(s);
  }

  lemma Chip3Routed()
    ensures GetResponse(Suggestions[3]) == Draft
  {
    var s := Lower(Suggestions[3]);
    LowerChip3();
    Chip3Chars(s);
    Chip3Keywords(s);
    Chip3MoreKeywords(s);
    ContainsWitness(s, "draft", 0);
  }

  /** Each suggestion chip gets the reply it asks for. */
  lemma SuggestionsRouted()
    ensures GetResponse(Suggestions[0]) == Optimize
    ensures GetResponse(Suggestions[1]) == Bottleneck
    ensures GetResponse(Suggestions[2]) == Summary
    ensures GetResponse(Suggestions[3]) == Draft
  {
    var s := Lower(Suggestions[0]);
    assert s[0..5] == "optim";
    ContainsWitness(s, "optim", 0);
    Chip1Routed();
    Chip2Routed();
    Chip3Routed();
  }

  /** What a chat entry holds: text typed by the user (or the greeting),
      or one of the canned replies. */
  datatype Content = Written(text: string) | Canned(reply: Reply)

  datatype Message = Message(id: int, author: string, content: Content, time: string)

  const Greeting := Message(1, "assistant", Written("Hello! I'm your BPMS AI assistant. I can help you optimize workflows, "
    + "analyze bottlenecks, summarize processes, and draft business rules.\n\nWhat would you like to explore?"), "14:30")

  /** The message `handleSend` sends: a chip's text as it is, else the
      trimmed input; nothing when that is empty. */
  function Outgoing(text: string, input: string): (r: Option<string>)
    ensures text != "" ==> r == Some(text)
    ensures text == "" ==> (r.None? <==> forall i :: 0 <= i < |input| ==> IsSpace(input[i]))
    ensures r.Some? ==> r.value != ""
  {
    var msg := if text != "" then text else Trim(input);
    if msg == "" then None else Some(msg)
  }

  /** The chat's state. The clock and the displayed time are parameters. */
  class Chat {
    var messages: seq<Message>
    var input: string
    var isTyping: bool

    constructor()
      ensures messages == [Greeting] && input == "" && !isTyping
    {
      messages := [Greeting];
      input := "";
      isTyping := false;
    }

    /** `handleSend`: a blank message changes nothing; otherwise the user's
        message is appended, the input cleared and the typing indicator
        shown. */
    method HandleSend(text: string, now: int, time: string) returns (sent: Option<string>)
      modifies this
      ensures sent == Outgoing(text, old(input))
      ensures sent.None? ==> messages == old(messages) && input == old(input) && isTyping == old(isTyping)
      ensures sent.Some? ==>
        messages == old(messages) + [Message(now, "user", Written(sent.value), time)] && input == "" && isTyping
    {
      sent := Outgoing(text, input);
      if sent.None? {
        return;
      }
      messages := messages + [Message(now, "user", Written(sent.value), time)];
      input := "";
      isTyping := true;
    }

    /** The delayed reply to a sent message: the typing indicator goes and
        the canned reply the message routes to is appended. */
    method Answer(msg: string, now: int, time: string)
      modifies this
      ensures messages == old(messages) + [Message(now + 1, "assistant", Canned(GetResponse(msg)), time)]
      ensures !isTyping && input == old(input)
    {
      isTyping := false;
      messages := messages + [Message(now + 1, "assistant", Canned(GetResponse(msg)), time)];
    }
  }

  /** Sending blank input without a chip text sends nothing. */
  lemma BlankSendsNothing(input: string)
    requires forall i :: 0 <= i < |input| ==> IsSpace(input[i])
    ensures Outgoing("", input) == None
  {
  }
}
