/**
  * The in-page debug console (src/components/DebugConsole.tsx): console calls
  * are rendered to one line of text each and kept in a log of the last 100
  * messages, numbered by a counter that a clear does not reset.
  *
  * The React state and the `messageIdRef` counter are the fields of the
  * `ConsoleBuffer` class. What JavaScript's runtime decides about an argument
  * (its `String` form, what `JSON.stringify` returns or throws, its
  * constructor name, its keys) is given with the argument, as `Arg`.
  */
module DebugConsole {
  import opened Wrappers
  import opened Strings

  datatype MessageType = Log | Warn | Error | Info

  /** A captured message; `timestamp` stands for the `Date` of the capture. */
  datatype ConsoleMessage = ConsoleMessage(id: nat, kind: MessageType, message: string, timestamp: nat)

  /** The log keeps this many of the most recent messages. */
  const MaxMessages: nat := 100

  // ---------------------------------------------------------------------------
  // The message log

  /** `s.slice(-n)`: the last `n` elements, or all of them when there are fewer. */
  function KeepLast<T>(s: seq<T>, n: nat): (r: seq<T>)
    ensures |r| == if |s| < n then |s| else n
    ensures r == s[|s| - |r|..]
  {
    if |s| <= n then s else s[|s| - n..]
  }

  /** Ids rise strictly along the log. */
  predicate IdsIncreasing(msgs: seq<ConsoleMessage>) {
    forall i, j :: 0 <= i < j < |msgs| ==> msgs[i].id < msgs[j].id
  }

  /** Every id in the log was handed out before `next`. */
  predicate IdsBelow(msgs: seq<ConsoleMessage>, next: nat) {
    forall i :: 0 <= i < |msgs| ==> msgs[i].id < next
  }

  /** Appending a message and keeping the last 100: the log grows by one up to 100, the
      new message is last, and the others are the most recent earlier ones, in order. */
  lemma AppendKeepsMostRecent(log: seq<ConsoleMessage>, m: ConsoleMessage)
    ensures var r := KeepLast(log + [m], MaxMessages);
      && |r| == (if |log| + 1 < MaxMessages then |log| + 1 else MaxMessages)
      && r[|r| - 1] == m
      && r[..|r| - 1] == log[|log| - (|r| - 1)..]
  {
    var r := KeepLast(log + [m], MaxMessages);
    assert r[..|r| - 1] == (log + [m])[|log| + 1 - |r|..|log|];
  }

  /** A suffix of a log keeps its ids rising and below the same bound. */
  lemma SuffixKeepsIds(log: seq<ConsoleMessage>, k: nat, next: nat)
    requires k <= |log| && IdsIncreasing(log) && IdsBelow(log, next)
    ensures IdsIncreasing(log[k..]) && IdsBelow(log[k..], next)
  {
    var r := log[k..];
    forall i, j | 0 <= i < j < |r| ensures r[i].id < r[j].id {
      assert r[i] == log[k + i] && r[j] == log[k + j];
    }
    forall i | 0 <= i < |r| ensures r[i].id < next {
      assert r[i] == log[k + i];
    }
  }

  /** A message numbered with the counter keeps the ids of the log rising and below the
      counter once the counter has moved on. */
  lemma AppendKeepsIdsIncreasing(log: seq<ConsoleMessage>, next: nat, m: ConsoleMessage)
    requires IdsIncreasing(log) && IdsBelow(log, next) && m.id == next
    ensures IdsIncreasing(KeepLast(log + [m], MaxMessages))
    ensures IdsBelow(KeepLast(log + [m], MaxMessages), next + 1)
  {
    var all := log + [m];
    forall i, j | 0 <= i < j < |all| ensures all[i].id < all[j].id {
      assert all[i] == log[i];
      if j < |log| {
        assert all[j] == log[j];
      }
    }
    forall i | 0 <= i < |all| ensures all[i].id < next + 1 {
      if i < |log| {
        assert all[i] == log[i];
      }
    }
    var r := KeepLast(all, MaxMessages);
    SuffixKeepsIds(all, |all| - |r|, next + 1);
  }

  /** The log and the id counter of one console. */
  class ConsoleBuffer {
    var messages: seq<ConsoleMessage>
    var nextId: nat

    ghost predicate Valid()
      reads this
    {
      |messages| <= MaxMessages && IdsIncreasing(messages) && IdsBelow(messages, nextId)
    }

    /** The console starts with an empty log and the counter at 0. */
    constructor ()
      ensures messages == [] && nextId == 0
      ensures Valid()
    {
      messages := [];
      nextId := 0;
    }

    /** The `setMessages` updater of `captureMessage`: the message takes the counter's
        value as its id, the counter moves on, and the log keeps the last 100. */
    method Append(kind: MessageType, message: string, timestamp: nat)
      requires Valid()
      modifies this
      ensures Valid()
      ensures nextId == old(nextId) + 1
      ensures messages == KeepLast(old(messages) + [ConsoleMessage(old(nextId), kind, message, timestamp)], MaxMessages)
    {
      var newMessage := ConsoleMessage(nextId, kind, message, timestamp);
      AppendKeepsIdsIncreasing(messages, nextId, newMessage);
      nextId := nextId + 1;
      messages := KeepLast(messages + [newMessage], MaxMessages);
    }

    /** `captureMessage(kind)(...args)`: the arguments rendered and joined by single
        spaces, then appended. */
    method Capture(kind: MessageType, args: seq<Arg>, timestamp: nat)
      requires Valid()
      modifies this
      ensures Valid()
      ensures nextId == old(nextId) + 1
      ensures messages == KeepLast(old(messages) + [ConsoleMessage(old(nextId), kind, CaptureText(args), timestamp)], MaxMessages)
    {
      var message := CaptureText(args);
      Append(kind, message, timestamp);
    }

    /** `clearMessages`: the log empties and the counter stays where it was. */
    method Clear()
      requires Valid()
      modifies this
      ensures Valid()
      ensures messages == [] && nextId == old(nextId)
    {
      messages := [];
    }
  }

  // ---------------------------------------------------------------------------
  // Message classes

  /** The name of a message type as the source spells it. */
  function TypeName(kind: MessageType): string {
    match kind
    case Log => "log"
    case Warn => "warn"
    case Error => "error"
    case Info => "info"
  }

  /** `getMessageClass`: error, warn and info have their own class, and everything else
      (that is, log) the log class. */
  function MessageClass(kind: MessageType): (c: string)
    ensures c == "debug-console-message-" + TypeName(kind)
  {
    match kind
    case Error => "debug-console-message-error"
    case Warn => "debug-console-message-warn"
    case Info => "debug-console-message-info"
    case _ => "debug-console-message-log"
  }

  /** Different message types are told apart by their class. */
  lemma MessageClassInjective(a: MessageType, b: MessageType)
    ensures MessageClass(a) == MessageClass(b) <==> a == b
  {
    if a != b {
      assert MessageClass(a)[22..] != MessageClass(b)[22..];
    }
  }

  // ---------------------------------------------------------------------------
  // Rendering the arguments

  /** What a `JSON.stringify` call gives: text, `undefined`, or an exception. */
  datatype Stringified = Json(text: string) | NoJson | Threw

  /** The kinds of object the last fallback tells apart. `items` holds, per element of an
      array, `JSON.stringify(item)` or else `String(item)`, and None when both throw;
      `keys` is `Object.keys(arg)`, None when that throws; `ctorName` is
      `arg.constructor?.name`. */
  datatype ObjectKind =
    | DateObject(iso: string)
    | ErrorObject(errorMessage: string)
    | ArrayObject(items: seq<Option<string>>)
    | PlainObject(keys: Option<seq<string>>, ctorName: Option<string>)

  /** A console argument: a primitive with its `String` form, or an object with the
      outcomes of stringifying it as it is and after its cycles are removed. */
  datatype Arg =
    | Primitive(text: string)
    | Object(json: Stringified, cleanedJson: Stringified, kind: ObjectKind)

  /** `", ...N more"`, the note for N elements left out. */
  function MoreNote(n: nat): string {
    ", ..." + NatToDecimal(n) + " more"
  }

  /** The number in the note reads back as the count it was written from. */
  lemma MoreNoteReadsBack(n: nat)
    ensures exists digits :: MoreNote(n) == ", ..." + digits + " more" && IsDigits(digits) && DecimalValue(digits) == n
  {
    assert MoreNote(n) == ", ..." + NatToDecimal(n) + " more";
  }

  /** The first `n` elements, or all when there are fewer. */
  function Take<T>(s: seq<T>, n: nat): (r: seq<T>)
    ensures |r| == if |s| < n then |s| else n
    ensures r == s[..|r|]
  {
    if |s| <= n then s else s[..n]
  }

  /** All element renderings, when none of them failed. */
  function AllPresent(items: seq<Option<string>>): Option<seq<string>> {
    if items == [] then Some([])
    else
      match AllPresent(items[..|items| - 1])
      case None => None
      case Some(prev) =>
        if items[|items| - 1].None? then None else Some(prev + [items[|items| - 1].value])
  }

  /** The array preview: the first 10 elements joined by ", ", with a note of how many
      more there are; `[Array(n)]` when an element can be rendered neither way. Only the
      first 10 elements are rendered at all. */
  function ArrayPreview(items: seq<Option<string>>): (r: string)
    ensures AllPresent(Take(items, 10)).None? ==> r == "[Array(" + NatToDecimal(|items|) + ")]"
    ensures AllPresent(Take(items, 10)).Some? ==>
              && StartsWith(r, "[" + Join(AllPresent(Take(items, 10)).value, ", "))
              && EndsWith(r, "]")
  {
    match AllPresent(Take(items, 10))
    case None => "[Array(" + NatToDecimal(|items|) + ")]"
    case Some(shown) =>
      var head := "[" + Join(shown, ", ");
      var r := head + (if |items| > 10 then MoreNote(|items| - 10) else "") + "]";
      assert r[..|head|] == head;
      r
  }

  /** With more than 10 elements the preview shows the first 10 and notes the rest;
      with at most 10 it shows them all and has no note. */
  lemma ArrayPreviewAccountsForAll(items: seq<Option<string>>)
    requires AllPresent(Take(items, 10)).Some?
    ensures |items| > 10 ==>
              ArrayPreview(items) == "[" + Join(AllPresent(items[..10]).value, ", ") + MoreNote(|items| - 10) + "]"
    ensures |items| <= 10 ==> ArrayPreview(items) == "[" + Join(AllPresent(items).value, ", ") + "]"
  {
  }

  /** `arg.constructor?.name || 'Object'`: an absent or empty name reads "Object". */
  function ConstructorName(ctorName: Option<string>): (r: string)
    ensures r != ""
    ensures ctorName.Some? && ctorName.value != "" ==> r == ctorName.value
    ensures !(ctorName.Some? && ctorName.value != "") ==> r == "Object"
  {
    if ctorName.Some? && ctorName.value != "" then ctorName.value else "Object"
  }

  /** The key preview: `{} (Ctor)` without keys, else the first 5 keys joined by ", "
      with a note of how many more there are. */
  function KeyPreview(keys: seq<string>, ctor: string): (r: string)
    ensures keys == [] ==> r == "{} (" + ctor + ")"
    ensures keys != [] ==> StartsWith(r, "{" + Join(Take(keys, 5), ", ")) && EndsWith(r, "} (" + ctor + ")")
  {
    if keys == [] then "{} (" + ctor + ")"
    else
      var head := "{" + Join(Take(keys, 5), ", ");
      var tail := "} (" + ctor + ")";
      var r := head + (if |keys| > 5 then MoreNote(|keys| - 5) else "") + tail;
      assert r[..|head|] == head;
      assert r[|r| - |tail|..] == tail;
      r
  }

  /** With more than 5 keys the preview shows the first 5 and notes the rest. */
  lemma KeyPreviewAccountsForAll(keys: seq<string>, ctor: string)
    requires |keys| > 5
    ensures KeyPreview(keys, ctor) == "{" + Join(keys[..5], ", ") + MoreNote(|keys| - 5) + ("} (" + ctor + ")")
  {
    assert Take(keys, 5) == keys[..5];
  }

  /** With 1 to 5 keys the preview shows them all and has no note. */
  lemma KeyPreviewShowsFew(keys: seq<string>, ctor: string)
    requires 0 < |keys| <= 5
    ensures KeyPreview(keys, ctor) == "{" + Join(keys, ", ") + "} (" + ctor + ")"
  {
    assert Take(keys, 5) == keys;
  }

  /** The last fallback, once stringifying has thrown twice. */
  function Fallback(kind: ObjectKind): string {
    match kind
    case DateObject(iso) => iso
    case ErrorObject(message) => "Error: " + message
    case ArrayObject(items) => ArrayPreview(items)
    case PlainObject(keys, ctorName) =>
      var ctor := ConstructorName(ctorName);
      if keys.None? then "[" + ctor + " Object]" else KeyPreview(keys.value, ctor)
  }

  /** The text of one argument inside `args.map`; None is `undefined`, which `join`
      writes as nothing. */
  function Render(arg: Arg): (r: Option<string>)
    ensures arg.Primitive? ==> r == Some(arg.text)
    ensures arg.Object? && arg.json.Json? && !(arg.json.text == "{}" && arg.kind.ErrorObject?) ==> r == Some(arg.json.text)
    ensures arg.Object? && arg.json.Json? && arg.json.text == "{}" && arg.kind.ErrorObject? ==>
              r == Some("Error: " + arg.kind.errorMessage)
    ensures arg.Object? && arg.json.Threw? ==> r == (match arg.cleanedJson
                                                    case Json(t) => Some(t)
                                                    case NoJson => None
                                                    case Threw => Some(Fallback(arg.kind)))
    ensures arg.Object? && arg.json.NoJson? ==> r == None
  {
    match arg
    case Primitive(text) => Some(text)
    case Object(json, cleanedJson, kind) =>
      match json
      case Json(text) =>
        if text == "{}" && kind.ErrorObject? then Some("Error: " + kind.errorMessage) else Some(text)
      case NoJson => None
      case Threw =>
        match cleanedJson
        case Json(text) => Some(text)
        case NoJson => None
        case Threw => Some(Fallback(kind))
  }

  /** `args.map(...).join(' ')` */
  function CaptureText(args: seq<Arg>): (r: string)
    ensures |args| == 1 ==> r == (if Render(args[0]).Some? then Render(args[0]).value else "")
  {
    Join(seq(|args|, i requires 0 <= i < |args| =>
      if Render(args[i]).Some? then Render(args[i]).value else ""), " ")
  }

  /** The arguments of one call are captured as the text of the first ones, one space,
      and the text of the rest. */
  lemma CaptureTextConcat(a: seq<Arg>, b: seq<Arg>)
    requires a != [] && b != []
    ensures CaptureText(a + b) == CaptureText(a) + " " + CaptureText(b)
  {
    var ta := seq(|a|, i requires 0 <= i < |a| => if Render(a[i]).Some? then Render(a[i]).value else "");
    var tb := seq(|b|, i requires 0 <= i < |b| => if Render(b[i]).Some? then Render(b[i]).value else "");
    var ab := a + b;
    assert seq(|ab|, i requires 0 <= i < |ab| => if Render(ab[i]).Some? then Render(ab[i]).value else "") == ta + tb;
    JoinConcat(ta, tb, " ");
  }

  /** Primitive arguments are joined by single spaces. */
  lemma {:induction false} PrimitivesJoined(texts: seq<string>)
    ensures CaptureText(seq(|texts|, i requires 0 <= i < |texts| => Primitive(texts[i]))) == Join(texts, " ")
  {
    var args := seq(|texts|, i requires 0 <= i < |texts| => Primitive(texts[i]));
    assert seq(|args|, i requires 0 <= i < |args| =>
             if Render(args[i]).Some? then Render(args[i]).value else "") == texts;
  }
}
