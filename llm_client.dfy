/**
 * The two list transforms of app/llm_client.py: splitting a frontend
 * conversation into LangChain history and the latest input, and joining the
 * retrieved chunks into one context string.
 *
 * The prompt template, the Gemini call and the retriever itself are not
 * modelled; the retriever's documents are an input of BuildContext.
 */
module LlmClient {
  import opened Wrappers
  import RagStore

  /** A frontend message as the Python code sees it: a dict from str to str. */
  type Message = map<string, string>

  /** A LangChain history pair (role, text). */
  datatype Turn = Turn(role: string, text: string)

  /** What convert_history_for_langchain returns: (history_pairs, latest_input). */
  datatype Conversation = Conversation(history: seq<Turn>, latestInput: string)

  /** The KeyError a dict lookup raises, with the missing key. */
  datatype KeyError = KeyError(key: string)

  /** The separator build_context puts between chunks. */
  const Separator := "\n\n---\n\n"

  // ---------------------------------------------------------------------------
  // Conversation reformatting
  // ---------------------------------------------------------------------------

  /** The LangChain role of a frontend role: "user" is "human", anything else "ai". */
  function LangChainRole(role: string): (r: string)
    ensures r == "human" || r == "ai"
    ensures r == "human" <==> role == "user"
  {
    if role == "user" then "human" else "ai"
  }

  /**
   * The KeyError reading a history message raises, if any: its role is
   * looked up before its content.
   */
  function TurnKeyError(m: Message): (r: Option<string>)
    ensures r.None? <==> "role" in m && "content" in m
    ensures r == Some("role") <==> "role" !in m
    ensures r == Some("content") <==> "role" in m && "content" !in m
  {
    if "role" !in m then Some("role")
    else if "content" !in m then Some("content")
    else None
  }

  /** The history pair of a message that has both keys. */
  function ToTurn(m: Message): Turn
    requires "role" in m && "content" in m
  {
    Turn(LangChainRole(m["role"]), m["content"])
  }

  /** The first KeyError raised when the messages are read in order. */
  function FirstKeyError(ms: seq<Message>): (r: Option<string>)
    ensures r.None? <==> forall i :: 0 <= i < |ms| ==> TurnKeyError(ms[i]).None?
    ensures r.Some? ==>
      exists i :: 0 <= i < |ms| && r == TurnKeyError(ms[i]) &&
        (forall j :: 0 <= j < i ==> TurnKeyError(ms[j]).None?)
  {
    if ms == [] then None
    else if TurnKeyError(ms[0]).Some? then TurnKeyError(ms[0])
    else
      var r := FirstKeyError(ms[1..]);
      assert r.Some? ==> exists i :: (0 <= i < |ms[1..]| && r == TurnKeyError(ms[1..][i]) &&
        (forall j :: 0 <= j < i ==> TurnKeyError(ms[1..][j]).None?));
      assert forall i :: 0 <= i < |ms[1..]| ==> ms[1..][i] == ms[i + 1];
      r
  }

  /**
   * A lookup that fails at message i after i good messages is the first
   * failure: a corollary of FirstKeyError's contract, since the index its
   * existential names can be neither before nor after i.
   */
  lemma FirstKeyErrorAt(ms: seq<Message>, i: nat)
    requires i < |ms| && TurnKeyError(ms[i]).Some?
    requires forall j :: 0 <= j < i ==> TurnKeyError(ms[j]).None?
    ensures FirstKeyError(ms) == TurnKeyError(ms[i])
  {
  }

  /**
   * The result of convert_history_for_langchain: ([], "") for no messages;
   * otherwise the content of the last message (whatever its role) and one
   * history pair per earlier message, in order; or the first KeyError.
   */
  function ConvertHistory(messages: seq<Message>): (r: Result<Conversation, KeyError>)
    ensures messages == [] ==> r == Success(Conversation([], ""))
    ensures messages != [] ==>
      (r.Success? <==>
        "content" in messages[|messages| - 1] &&
        (forall i :: 0 <= i < |messages| - 1 ==> TurnKeyError(messages[i]).None?))
    ensures r.Success? && messages != [] ==>
      r.value.latestInput == messages[|messages| - 1]["content"] &&
      |r.value.history| == |messages| - 1 &&
      forall i :: 0 <= i < |messages| - 1 ==>
        r.value.history[i].text == messages[i]["content"] &&
        (r.value.history[i].role == "human" <==> messages[i]["role"] == "user") &&
        (r.value.history[i].role == "ai" <==> messages[i]["role"] != "user")
    ensures r.Failure? && messages != [] && "content" !in messages[|messages| - 1] ==>
      r.error == KeyError("content")
    ensures r.Failure? && messages != [] && "content" in messages[|messages| - 1] ==>
      Some(r.error.key) == FirstKeyError(messages[..|messages| - 1])
  {
    if messages == [] then Success(Conversation([], ""))
    else
      var last := messages[|messages| - 1];
      if "content" !in last then Failure(KeyError("content"))
      else
        var earlier := messages[..|messages| - 1];
        match FirstKeyError(earlier)
        case Some(key) => Failure(KeyError(key))
        case None =>
          Success(Conversation(seq(|earlier|, i requires 0 <= i < |earlier| => ToTurn(earlier[i])),
                               last["content"]))
  }

  /** convert_history_for_langchain, with its loop over messages[:-1]. */
  method ConvertHistoryForLangChain(messages: seq<Message>) returns (r: Result<Conversation, KeyError>)
    ensures r == ConvertHistory(messages)
  {
    if |messages| == 0 {
      return Success(Conversation([], ""));
    }
    var lastMessage := messages[|messages| - 1];
    if "content" !in lastMessage {
      return Failure(KeyError("content"));
    }
    var latestInput := lastMessage["content"];

    ghost var earlier := messages[..|messages| - 1];
    var historyPairs: seq<Turn> := [];
    var i := 0;
    while i < |messages| - 1
      invariant 0 <= i <= |messages| - 1
      invariant |historyPairs| == i
      invariant forall j :: 0 <= j < i ==>
        TurnKeyError(messages[j]).None? && historyPairs[j] == ToTurn(messages[j])
    {
      var m := messages[i];
      if "role" !in m {
        FirstKeyErrorAt(earlier, i);
        return Failure(KeyError("role"));
      }
      var isUser := m["role"] == "user";
      if "content" !in m {
        FirstKeyErrorAt(earlier, i);
        return Failure(KeyError("content"));
      }
      if isUser {
        historyPairs := historyPairs + [Turn("human", m["content"])];
      } else {
        historyPairs := historyPairs + [Turn("ai", m["content"])];
      }
      i := i + 1;
    }
    assert forall j :: 0 <= j < |earlier| ==> earlier[j] == messages[j];
    assert FirstKeyError(earlier).None?;
    assert historyPairs == seq(|earlier|, j requires 0 <= j < |earlier| => ToTurn(earlier[j]));
    return Success(Conversation(historyPairs, latestInput));
  }

  /** The frontend role a LangChain role came from, for a user/assistant conversation. */
  function FrontendRole(role: string): string
  {
    if role == "human" then "user" else "assistant"
  }

  /** Turns a converted conversation back into frontend messages, the latest as a user turn. */
  function ToFrontend(c: Conversation): seq<Message>
  {
    seq(|c.history|, i requires 0 <= i < |c.history| =>
          map["role" := FrontendRole(c.history[i].role), "content" := c.history[i].text])
    + [map["role" := "user", "content" := c.latestInput]]
  }

  /** A message as the frontend sends it: exactly a role and a content, the role user or assistant. */
  predicate IsFrontendMessage(m: Message)
  {
    m.Keys == {"role", "content"} && (m["role"] == "user" || m["role"] == "assistant")
  }

  /** A frontend conversation: well-formed messages, ending with the user's question. */
  predicate IsFrontendConversation(ms: seq<Message>)
  {
    ms != [] && (forall i :: 0 <= i < |ms| ==> IsFrontendMessage(ms[i])) &&
    ms[|ms| - 1]["role"] == "user"
  }

  /**
   * A two-key message equals the map display built from its two values
   * (map extensionality, which Dafny applies unaided).
   */
  lemma FrontendMessageIsDisplay(m: Message)
    requires IsFrontendMessage(m)
    ensures m == map["role" := m["role"], "content" := m["content"]]
  {
  }

  /**
   * Conversion loses nothing for a frontend conversation: the history and the
   * latest input give back the original messages.
   */
  lemma {:induction false} ConvertHistoryRoundTrip(ms: seq<Message>)
    requires IsFrontendConversation(ms)
    ensures ConvertHistory(ms).Success?
    ensures ToFrontend(ConvertHistory(ms).value) == ms
  {
    var n := |ms|;
    assert forall i :: 0 <= i < n - 1 ==> IsFrontendMessage(ms[i]);
    var c := ConvertHistory(ms).value;
    var back := ToFrontend(c);
    assert |back| == n;
    forall i | 0 <= i < n ensures back[i] == ms[i] {
      FrontendMessageIsDisplay(ms[i]);
      if i < n - 1 {
        assert FrontendRole(c.history[i].role) == ms[i]["role"];
      }
    }
  }

  // ---------------------------------------------------------------------------
  // Context assembly
  // ---------------------------------------------------------------------------

  /** The page contents of the retrieved documents, in retrieval order. */
  function PageContents(docs: seq<RagStore.Document>): seq<string>
  {
    seq(|docs|, i requires 0 <= i < |docs| => docs[i].pageContent)
  }

  /** Python's sep.join(parts). */
  function Join(sep: string, parts: seq<string>): (r: string)
    ensures |parts| == 0 ==> r == ""
    ensures |parts| > 0 ==> |parts[0]| <= |r| && r[..|parts[0]|] == parts[0]
    decreases |parts|
  {
    if |parts| == 0 then ""
    else if |parts| == 1 then parts[0]
    else Join(sep, parts[..|parts| - 1]) + sep + parts[|parts| - 1]
  }

  /** Where part i starts in the joined string: every earlier part is followed by a separator. */
  function Offset(sep: string, parts: seq<string>, i: nat): nat
    requires i <= |parts|
  {
    if i == 0 then 0 else Offset(sep, parts, i - 1) + |parts[i - 1]| + |sep|
  }

  /** The sum of the lengths of the parts. */
  function TotalLength(parts: seq<string>): nat
  {
    if parts == [] then 0 else TotalLength(parts[..|parts| - 1]) + |parts[|parts| - 1]|
  }

  /** An offset depends only on the parts before it. */
  lemma {:induction false} OffsetPrefix(sep: string, parts: seq<string>, k: nat, i: nat)
    requires i <= k <= |parts|
    ensures Offset(sep, parts[..k], i) == Offset(sep, parts, i)
  {
    if i > 0 {
      OffsetPrefix(sep, parts, k, i - 1);
    }
  }

  /** The offset of part i is the length of the parts before it plus one separator each. */
  lemma {:induction false} OffsetIsLength(sep: string, parts: seq<string>, i: nat)
    requires i <= |parts|
    ensures Offset(sep, parts, i) == TotalLength(parts[..i]) + i * |sep|
  {
    if i > 0 {
      OffsetIsLength(sep, parts, i - 1);
      assert parts[..i][..i - 1] == parts[..i - 1];
    }
  }

  /** The joined string ends with the last part: its length is the last part's offset plus its length. */
  lemma {:induction false} JoinEnd(sep: string, parts: seq<string>)
    requires |parts| > 0
    ensures |Join(sep, parts)| == Offset(sep, parts, |parts| - 1) + |parts[|parts| - 1]|
    decreases |parts|
  {
    var n := |parts|;
    if n > 1 {
      JoinEnd(sep, parts[..n - 1]);
      OffsetPrefix(sep, parts, n - 1, n - 2);
    }
  }

  /** Joining n > 1 parts is joining the first n - 1, a separator, then the last part. */
  lemma JoinSplit(sep: string, parts: seq<string>)
    requires |parts| > 1
    ensures Join(sep, parts) == Join(sep, parts[..|parts| - 1]) + sep + parts[|parts| - 1]
    ensures |Join(sep, parts[..|parts| - 1])| + |sep| == Offset(sep, parts, |parts| - 1)
  {
    var n := |parts|;
    JoinEnd(sep, parts[..n - 1]);
    OffsetPrefix(sep, parts, n - 1, n - 2);
  }

  /** A slice that lies inside the left operand of a concatenation is a slice of it. */
  lemma SliceOfLeft(x: string, y: string, lo: nat, hi: nat)
    requires lo <= hi <= |x|
    ensures (x + y)[lo..hi] == x[lo..hi]
  {
    assert forall k :: lo <= k < hi ==> (x + y)[k] == x[k];
  }

  /** The last of n > 1 parts sits after the join of the others and one separator. */
  lemma JoinLastPart(sep: string, parts: seq<string>)
    requires |parts| > 1
    ensures Offset(sep, parts, |parts| - 1) + |parts[|parts| - 1]| <= |Join(sep, parts)|
    ensures Join(sep, parts)[Offset(sep, parts, |parts| - 1)..Offset(sep, parts, |parts| - 1) + |parts[|parts| - 1]|]
      == parts[|parts| - 1]
    ensures |sep| <= Offset(sep, parts, |parts| - 1)
    ensures Join(sep, parts)[Offset(sep, parts, |parts| - 1) - |sep|..Offset(sep, parts, |parts| - 1)] == sep
  {
    var n := |parts|;
    var j := Join(sep, parts[..n - 1]);
    var last := parts[n - 1];
    JoinSplit(sep, parts);
    assert (j + sep + last)[|j|..|j| + |sep|] == sep;
    assert (j + sep + last)[|j| + |sep|..|j| + |sep| + |last|] == last;
  }

  /** A part before the last lies inside the join of the first n - 1 parts, at the same offset. */
  lemma JoinEarlierPart(sep: string, parts: seq<string>, i: nat)
    requires i < |parts| - 1
    requires Offset(sep, parts[..|parts| - 1], i) + |parts[i]| <= |Join(sep, parts[..|parts| - 1])|
    requires Join(sep, parts[..|parts| - 1])[Offset(sep, parts[..|parts| - 1], i)..Offset(sep, parts[..|parts| - 1], i) + |parts[i]|]
      == parts[i]
    requires i > 0 ==>
      |sep| <= Offset(sep, parts[..|parts| - 1], i) &&
      Join(sep, parts[..|parts| - 1])[Offset(sep, parts[..|parts| - 1], i) - |sep|..Offset(sep, parts[..|parts| - 1], i)] == sep
    ensures Offset(sep, parts, i) + |parts[i]| <= |Join(sep, parts)|
    ensures Join(sep, parts)[Offset(sep, parts, i)..Offset(sep, parts, i) + |parts[i]|] == parts[i]
    ensures i > 0 ==>
      |sep| <= Offset(sep, parts, i) &&
      Join(sep, parts)[Offset(sep, parts, i) - |sep|..Offset(sep, parts, i)] == sep
  {
    var n := |parts|;
    var j := Join(sep, parts[..n - 1]);
    var rest := sep + parts[n - 1];
    JoinSplit(sep, parts);
    OffsetPrefix(sep, parts, n - 1, i);
    var o := Offset(sep, parts, i);
    assert j + sep + parts[n - 1] == j + rest;
    SliceOfLeft(j, rest, o, o + |parts[i]|);
    if i > 0 {
      SliceOfLeft(j, rest, o - |sep|, o);
    }
  }

  /**
   * Where part i sits in sep.join(parts): at its offset, with a separator
   * right before it unless it is the first part.
   */
  lemma {:induction false} JoinPartAt(sep: string, parts: seq<string>, i: nat)
    requires i < |parts|
    ensures Offset(sep, parts, i) + |parts[i]| <= |Join(sep, parts)|
    ensures Join(sep, parts)[Offset(sep, parts, i)..Offset(sep, parts, i) + |parts[i]|] == parts[i]
    ensures i > 0 ==>
      |sep| <= Offset(sep, parts, i) &&
      Join(sep, parts)[Offset(sep, parts, i) - |sep|..Offset(sep, parts, i)] == sep
    decreases |parts|
  {
    var n := |parts|;
    if n > 1 {
      if i < n - 1 {
        var init := parts[..n - 1];
        JoinPartAt(sep, init, i);
        assert init[i] == parts[i];
        JoinEarlierPart(sep, parts, i);
      } else {
        JoinLastPart(sep, parts);
      }
    }
  }

  /** sep.join(parts) over n parts is the parts' total length plus n - 1 separators. */
  lemma {:induction false} JoinLength(sep: string, parts: seq<string>)
    requires |parts| > 0
    ensures |Join(sep, parts)| == TotalLength(parts) + (|parts| - 1) * |sep|
  {
    var n := |parts|;
    JoinEnd(sep, parts);
    OffsetIsLength(sep, parts, n - 1);
    assert parts[..n] == parts;
  }

  /**
   * The join in build_context: the page contents of the retrieved documents,
   * collected in order, joined with the separator.
   */
  method BuildContext(docs: seq<RagStore.Document>) returns (context: string)
    ensures context == Join(Separator, PageContents(docs))
    ensures docs == [] ==> context == ""
    ensures |docs| == 1 ==> context == docs[0].pageContent
  {
    var chunks: seq<string> := [];
    for i := 0 to |docs|
      invariant |chunks| == i
      invariant forall j :: 0 <= j < i ==> chunks[j] == docs[j].pageContent
    {
      chunks := chunks + [docs[i].pageContent];
    }
    assert chunks == PageContents(docs);
    context := Join(Separator, chunks);
  }
}
