/**
 * The `@Listen()` decorator pass: each class member's first `@Listen`
 * decorator is removed from the member, its comma-separated event names are
 * reduced from their legacy spellings (`TARGET:event`, `event.KEY`) to one
 * canonical listener record each, deprecation diagnostics are pushed onto the
 * build's diagnostics, and, when any record was produced, the class gets one
 * static `listeners` member holding all of them.
 */
module ListenDecorator {
  import opened Common
  import opened Text

  /** The drag events of the passive table. */
  const DragEvents: seq<string> := ["dragstart", "drag", "dragend", "dragenter", "dragover", "dragleave", "drop"]

  /** The mouse events of the passive table. */
  const MouseEvents: seq<string> :=
    ["mouseenter", "mouseover", "mousemove", "mousedown", "mouseup", "mouseleave", "mouseout", "mousewheel"]

  /** The pointer events of the passive table. */
  const PointerEvents: seq<string> :=
    ["pointerover", "pointerenter", "pointerdown", "pointermove", "pointerup", "pointercancel", "pointerout", "pointerleave"]

  /** The touch events of the passive table. */
  const TouchEvents: seq<string> := ["touchstart", "touchmove", "touchend", "touchenter", "touchleave", "touchcancel"]

  /** Event names whose listeners are passive unless the options say otherwise, in the source's order. */
  const PassiveTrueDefaults: seq<string> := DragEvents + MouseEvents + PointerEvents + ["resize", "scroll"] + TouchEvents + ["wheel"]

  /** The targets the legacy `TARGET:event` spelling may name. */
  const ValidElementRefPrefixes: seq<string> := ["parent", "body", "document", "window"]

  /** The key names the legacy `event.KEY` spelling may name. */
  const ValidKeycodeSuffix: seq<string> := ["enter", "escape", "space", "tab", "up", "right", "down", "left"]

  const CommaWarning: string :=
    "Deprecated @Listen() feature. Use multiple @Listen() decorators instead of comma-separated names."

  const KeycodeError: string :=
    "Deprecated @Listen() feature. Using key is not longer supported, use \"event.key\" instead."

  /** The warning for the legacy target prefix, naming the replacement spelling. */
  function TargetWarning(eventName: string, prefix: string): string {
    "Deprecated @Listen() feature. Use @Listen('" + eventName + "', { target: '" + prefix + "' }) instead."
  }

  /** `w` is made of the letters a-z only. */
  predicate LowerCaseWord(w: string) {
    forall k :: 0 <= k < |w| ==> 'a' <= w[k] <= 'z'
  }

  /** Every word of `ws` is made of the letters a-z only. */
  predicate LowerCaseWords(ws: seq<string>) {
    forall i :: 0 <= i < |ws| ==> LowerCaseWord(ws[i])
  }

  /** Exact lookup of an already lower-cased and trimmed prefix: one of the four target names. */
  function IsValidTargetValue(prefix: string): (b: bool)
    ensures b <==> prefix == "parent" || prefix == "body" || prefix == "document" || prefix == "window"
    ensures b ==> LowerCaseWord(prefix)
  {
    prefix in ValidElementRefPrefixes
  }

  /** Exact, case-sensitive lookup: one of the eight key names, all lower-case. */
  function IsValidKeycodeSuffix(suffix: string): (b: bool)
    ensures b <==> (suffix == "enter" || suffix == "escape" || suffix == "space" || suffix == "tab"
                    || suffix == "up" || suffix == "right" || suffix == "down" || suffix == "left")
    ensures b ==> LowerCaseWord(suffix)
  {
    suffix in ValidKeycodeSuffix
  }

  /**
   * Exact lookup of an already lower-cased event name in the 32-entry table.
   * Every entry is made of the letters a-z only, so a name holding an
   * upper-case letter, a `.` or a `:` is never found.
   */
  function IsPassiveDefault(name: string): (b: bool)
    ensures b ==> LowerCaseWord(name)
  {
    PassiveTableLowerCase();
    name in PassiveTrueDefaults
  }

  /** The passive table holds 32 names, each made of the letters a-z only. */
  lemma PassiveTableLowerCase()
    ensures |PassiveTrueDefaults| == 32
    ensures LowerCaseWords(PassiveTrueDefaults)
  {
    DragEventsLowerCase();
    MouseEventsLowerCase();
    PointerEventsLowerCase();
    TouchEventsLowerCase();
    var rest: seq<string> := ["resize", "scroll"];
    assert LowerCaseWord(rest[0]) && LowerCaseWord(rest[1]);
    var last: seq<string> := ["wheel"];
    assert LowerCaseWord(last[0]);
  }

  lemma DragEventsLowerCase() ensures LowerCaseWords(DragEvents) {}
  lemma MouseEventsLowerCase() ensures LowerCaseWords(MouseEvents) {}
  lemma PointerEventsLowerCase() ensures LowerCaseWords(PointerEvents) {}
  lemma TouchEventsLowerCase() ensures LowerCaseWords(TouchEvents) {}

  /**
   * The options record of `@Listen(name, opts)`. A field is `None` when it is
   * absent; `capture`, `passive` and `enabled` are also `None` when they hold
   * something other than a boolean.
   */
  datatype ListenOptions = ListenOptions(
    target: Option<string>,
    capture: Option<bool>,
    passive: Option<bool>,
    enabled: Option<bool>)

  /** The `{}` that stands in for missing options. */
  const NoOptions: ListenOptions := ListenOptions(None, None, None, None)

  /** The canonical listener record (the source's `method` field is `methodName` here). */
  datatype Listener = Listener(
    name: string,
    methodName: string,
    target: Option<string>,
    capture: bool,
    passive: bool,
    disabled: bool)

  /** JavaScript truthiness of the `target` option: present and not the empty string. */
  predicate IsTruthy(target: Option<string>) {
    target.Some? && target.value != ""
  }

  /** The text before the first `:`, lower-cased and then trimmed. */
  function TargetPrefix(eventName: string): string {
    Trim(ToLower(Split(eventName, ':')[0]))
  }

  /** The legacy `TARGET:event` spelling applies. */
  predicate HasTargetPrefix(eventName: string, target: Option<string>) {
    !IsTruthy(target) && |Split(eventName, ':')| > 1 && IsValidTargetValue(TargetPrefix(eventName))
  }

  /**
   * The legacy `event.KEY` spelling applies: splitting on `.` gives exactly two
   * pieces (a third piece, even an empty one, means `rest` is defined) and the
   * second is a known key.
   */
  predicate HasKeycodeSuffix(name: string) {
    var parts := Split(name, '.');
    |parts| == 2 && IsValidKeycodeSuffix(parts[1])
  }

  /** A name, a target and the diagnostics produced so far. */
  datatype Stripped = Stripped(name: string, target: Option<string>, diagnostics: seq<Diagnostic>)

  /** The first normalisation step: the legacy target prefix. */
  function StripTargetPrefix(eventName: string, target: Option<string>): Stripped {
    if HasTargetPrefix(eventName, target) then
      var name := Trim(Split(eventName, ':')[1]);
      var prefix := TargetPrefix(eventName);
      Stripped(name, Some(prefix), [Diagnostic(Warn, TargetWarning(name, prefix))])
    else
      Stripped(eventName, target, [])
  }

  /** The second normalisation step: the legacy key suffix. */
  function StripKeycodeSuffix(s: Stripped): Stripped {
    if HasKeycodeSuffix(s.name) then
      Stripped(Split(s.name, '.')[0], s.target, s.diagnostics + [Diagnostic(Error, KeycodeError)])
    else
      s
  }

  /** The listener record and the diagnostics for one event name. */
  datatype Normalized = Normalized(listener: Listener, diagnostics: seq<Diagnostic>)

  /**
   * The listener record for a normalised name and target: the options'
   * booleans where given, else the defaults.
   */
  function Synthesize(name: string, methodName: string, target: Option<string>, opts: ListenOptions): Listener {
    var passive := match opts.passive
      case Some(p) => p
      case None => IsPassiveDefault(ToLower(name));
    Listener(name, methodName, target, opts.capture.GetOr(false), passive, opts.enabled == Some(false))
  }

  /** What `validateListener` computes: both steps, then the option defaults. */
  function Normalize(eventName: string, options: Option<ListenOptions>, methodName: string): Normalized {
    var opts := options.GetOr(NoOptions);
    var s := StripKeycodeSuffix(StripTargetPrefix(eventName, opts.target));
    Normalized(Synthesize(s.name, methodName, s.target, opts), s.diagnostics)
  }

  /**
   * `validateListener`: updates the event name and the target step by step,
   * pushing a warning for a legacy target prefix and an error for a legacy key
   * suffix, then fills in the option defaults.
   */
  method ValidateListener(diagnostics: Sink<Diagnostic>, eventName: string, options: Option<ListenOptions>, methodName: string)
    returns (listener: Listener)
    modifies diagnostics
    ensures listener == Normalize(eventName, options, methodName).listener
    ensures diagnostics.items == old(diagnostics.items) + Normalize(eventName, options, methodName).diagnostics
  {
    var opts := options.GetOr(NoOptions);
    var rawEventName := eventName;
    var target := opts.target;

    if !IsTruthy(target) {
      var splt := Split(eventName, ':');
      var prefix := Trim(ToLower(splt[0]));
      if |splt| > 1 && IsValidTargetValue(prefix) {
        rawEventName := Trim(splt[1]);
        target := Some(prefix);
        diagnostics.Push(Diagnostic(Warn, TargetWarning(rawEventName, prefix)));
      }
    }

    ghost var first := StripTargetPrefix(eventName, opts.target);
    assert rawEventName == first.name && target == first.target;
    assert diagnostics.items == old(diagnostics.items) + first.diagnostics;

    var parts := Split(rawEventName, '.');
    var keycode := if |parts| > 1 then Some(parts[1]) else None;
    var rest := if |parts| > 2 then Some(parts[2]) else None;
    if rest.None? && keycode.Some? && IsValidKeycodeSuffix(keycode.value) {
      rawEventName := parts[0];
      diagnostics.Push(Diagnostic(Error, KeycodeError));
    }
    assert rawEventName == StripKeycodeSuffix(first).name;

    listener := Synthesize(rawEventName, methodName, target, opts);
  }

  // ---------------------------------------------------------------------------
  // Properties of one event name
  // ---------------------------------------------------------------------------

  /** The record's name and target, and the diagnostics, are those the two steps leave. */
  lemma NormalizeSteps(eventName: string, options: Option<ListenOptions>, methodName: string)
    ensures var r := Normalize(eventName, options, methodName);
      var s := StripKeycodeSuffix(StripTargetPrefix(eventName, options.GetOr(NoOptions).target));
      r.listener.name == s.name && r.listener.target == s.target && r.listener.methodName == methodName
      && r.diagnostics == s.diagnostics
  {
  }

  /** A truthy `target` option is kept, and the target-prefix step adds no warning. */
  lemma ExplicitTargetKept(eventName: string, opts: ListenOptions, methodName: string)
    requires IsTruthy(opts.target)
    ensures var r := Normalize(eventName, Some(opts), methodName);
      r.listener.target == opts.target
      && r.listener.name == StripKeycodeSuffix(Stripped(eventName, opts.target, [])).name
      && forall k :: 0 <= k < |r.diagnostics| ==> r.diagnostics[k].level == Error
  {
  }

  /**
   * The key-suffix step keeps the target, only appends (at most one error) to
   * the diagnostics, and introduces no character into the name.
   */
  lemma KeycodeStepKeeps(s: Stripped, c: char)
    ensures var t := StripKeycodeSuffix(s);
      t.target == s.target
      && (t.diagnostics == s.diagnostics || t.diagnostics == s.diagnostics + [Diagnostic(Error, KeycodeError)])
      && (c in t.name ==> c in s.name)
  {
    if HasKeycodeSuffix(s.name) {
      var parts := Split(s.name, '.');
      JoinSplit(s.name, '.');
      assert s.name == parts[0] + "." + parts[1];
      assert c in parts[0] ==> c in s.name;
    }
  }

  /** The target-prefix step on the legacy `TARGET:event` spelling. */
  lemma TargetStepOnPrefix(eventName: string, target: Option<string>)
    requires HasTargetPrefix(eventName, target)
    ensures var second := Trim(Split(eventName, ':')[1]);
      var prefix := TargetPrefix(eventName);
      StripTargetPrefix(eventName, target) == Stripped(second, Some(prefix), [Diagnostic(Warn, TargetWarning(second, prefix))])
      && ':' !in second
  {
    TrimKeeps(Split(eventName, ':')[1], ':');
  }

  /**
   * The legacy `TARGET:event` spelling: the name becomes the trimmed second
   * piece (later pieces are dropped), the target the lower-cased prefix, and
   * exactly one warning comes first, possibly followed by the key-suffix error.
   * The resulting name has no `:` left.
   */
  lemma LegacyTargetPrefix(eventName: string, options: Option<ListenOptions>, methodName: string)
    requires !IsTruthy(options.GetOr(NoOptions).target)
    requires |Split(eventName, ':')| > 1
    requires IsValidTargetValue(TargetPrefix(eventName))
    ensures var r := Normalize(eventName, options, methodName);
      var second := Trim(Split(eventName, ':')[1]);
      r.listener.target == Some(TargetPrefix(eventName))
      && r.listener.name == StripKeycodeSuffix(Stripped(second, None, [])).name
      && 1 <= |r.diagnostics| <= 2
      && r.diagnostics[0] == Diagnostic(Warn, TargetWarning(second, TargetPrefix(eventName)))
      && (forall k :: 1 <= k < |r.diagnostics| ==> r.diagnostics[k].level == Error)
      && ':' !in r.listener.name
  {
    NormalizeSteps(eventName, options, methodName);
    var first := StripTargetPrefix(eventName, options.GetOr(NoOptions).target);
    TargetStepOnPrefix(eventName, options.GetOr(NoOptions).target);
    KeycodeStepKeeps(first, ':');
  }

  /** Without the legacy target spelling the target is the option's, and no warning is added. */
  lemma NoTargetPrefix(eventName: string, options: Option<ListenOptions>, methodName: string)
    requires !HasTargetPrefix(eventName, options.GetOr(NoOptions).target)
    ensures var r := Normalize(eventName, options, methodName);
      r.listener.target == options.GetOr(NoOptions).target
      && forall k :: 0 <= k < |r.diagnostics| ==> r.diagnostics[k].level == Error
  {
  }

  /**
   * The legacy `event.KEY` spelling (no target prefix involved): with exactly
   * two pieces and a known key, the name is the text before the `.`, the text
   * was that name, a `.` and the key, and one error is reported; otherwise the
   * name is kept and nothing is reported.
   */
  lemma KeycodeSuffix(eventName: string, options: Option<ListenOptions>, methodName: string)
    requires !HasTargetPrefix(eventName, options.GetOr(NoOptions).target)
    ensures var r := Normalize(eventName, options, methodName);
      var parts := Split(eventName, '.');
      if |parts| == 2 && IsValidKeycodeSuffix(parts[1]) then
        r.listener.name == parts[0] && eventName == r.listener.name + "." + parts[1]
        && '.' !in r.listener.name && r.diagnostics == [Diagnostic(Error, KeycodeError)]
      else
        r.listener.name == eventName && r.diagnostics == []
  {
    var parts := Split(eventName, '.');
    if |parts| == 2 {
      JoinSplit(eventName, '.');
    }
  }

  /** A name with neither `:` nor `.` is kept as it is, and nothing is reported. */
  lemma PlainName(eventName: string, options: Option<ListenOptions>, methodName: string)
    requires ':' !in eventName && '.' !in eventName
    ensures var r := Normalize(eventName, options, methodName);
      r.listener.name == eventName && r.listener.methodName == methodName
      && r.listener.target == options.GetOr(NoOptions).target && r.diagnostics == []
  {
    SplitAbsent(eventName, ':');
    SplitAbsent(eventName, '.');
  }

  /**
   * The option defaults: `capture` is the boolean option or false; `passive` is
   * the boolean option, or else whether the final name, lower-cased, is a
   * passive event; `disabled` holds exactly when `enabled` is `false`.
   */
  lemma OptionDefaults(eventName: string, opts: ListenOptions, methodName: string)
    ensures var l := Normalize(eventName, Some(opts), methodName).listener;
      (l.capture <==> opts.capture == Some(true))
      && (opts.passive.Some? ==> l.passive == opts.passive.value)
      && (opts.passive.None? ==> (l.passive <==> ToLower(l.name) in PassiveTrueDefaults))
      && (l.disabled <==> opts.enabled == Some(false))
  {
  }

  /** The passive default does not depend on the case of the final name. */
  lemma PassiveIgnoresCase(a: string, b: string, methodName: string)
    requires ':' !in a && '.' !in a && ':' !in b && '.' !in b
    requires ToLower(a) == ToLower(b)
    ensures Normalize(a, None, methodName).listener.passive == Normalize(b, None, methodName).listener.passive
  {
    PlainName(a, None, methodName);
    PlainName(b, None, methodName);
  }

  /**
   * A plain name followed by `.` and a key: a known key (compared exactly) is
   * dropped with the key error, and the passive default is looked up on the
   * plain name; any other key is kept, nothing is reported, and the passive
   * default is looked up on the whole text.
   */
  lemma KeySuffixOnPlainName(base: string, key: string, methodName: string)
    requires ':' !in base && '.' !in base && ':' !in key && '.' !in key
    ensures var r := Normalize(base + "." + key, None, methodName);
      if IsValidKeycodeSuffix(key) then
        r.listener.name == base && r.diagnostics == [Diagnostic(Error, KeycodeError)]
        && (r.listener.passive <==> IsPassiveDefault(ToLower(base)))
      else
        r.listener.name == base + "." + key && r.diagnostics == []
        && (r.listener.passive <==> IsPassiveDefault(ToLower(base + "." + key)))
  {
    var e := base + "." + key;
    assert Join([base, key], ".") == e;
    SplitJoin([base, key], '.');
    assert ':' !in e;
    SplitAbsent(e, ':');
    KeycodeSuffix(e, None, methodName);
  }

  /**
   * The key suffix is compared case-sensitively while the passive lookup is
   * not: `mousedown.Enter` keeps its whole name and is not passive, whereas
   * `mousedown.enter` loses its suffix, draws the key error and is passive.
   */
  lemma KeySuffixCaseSensitive(methodName: string)
    ensures var upper := Normalize("mousedown" + "." + "Enter", None, methodName);
      upper.listener.name == "mousedown" + "." + "Enter" && upper.diagnostics == [] && !upper.listener.passive
    ensures var lower := Normalize("mousedown" + "." + "enter", None, methodName);
      lower.listener.name == "mousedown" && lower.diagnostics == [Diagnostic(Error, KeycodeError)] && lower.listener.passive
  {
    MousedownFacts();
    KeySuffixOnPlainName("mousedown", "Enter", methodName);
    KeySuffixOnPlainName("mousedown", "enter", methodName);
  }

  /** The spelling facts behind `KeySuffixCaseSensitive`. */
  lemma MousedownFacts()
    ensures ':' !in "mousedown" && '.' !in "mousedown"
    ensures ':' !in "Enter" && '.' !in "Enter" && ':' !in "enter" && '.' !in "enter"
    ensures !IsValidKeycodeSuffix("Enter") && IsValidKeycodeSuffix("enter")
    ensures IsPassiveDefault(ToLower("mousedown"))
    ensures !IsPassiveDefault(ToLower("mousedown" + "." + "Enter"))
  {
    MousedownPassive();
    MousedownEnterNotPassive();
  }

  /** `mousedown` is in the passive table. */
  lemma MousedownPassive()
    ensures IsPassiveDefault(ToLower("mousedown"))
  {
    assert ToLower("mousedown") == "mousedown";
    assert PassiveTrueDefaults[10] == "mousedown";
  }

  /** No entry of the passive table has the length of `mousedown.enter`. */
  lemma MousedownEnterNotPassive()
    ensures !IsPassiveDefault(ToLower("mousedown" + "." + "Enter"))
  {
    assert |ToLower("mousedown" + "." + "Enter")| == 15;
  }

  // ---------------------------------------------------------------------------
  // The decorator on a class member
  // ---------------------------------------------------------------------------

  /**
   * A decorator on a class member: its name and, for `@Listen(text, opts)`,
   * its two arguments (`options` is `None` when the second is omitted).
   */
  datatype Decorator = Decorator(name: string, text: string, options: Option<ListenOptions>)

  predicate IsListen(d: Decorator) {
    d.name == "Listen"
  }

  /** A class member: its name and the decorators the pass may remove. */
  class Member {
    const name: string
    var decorators: seq<Decorator>

    constructor (name: string, decorators: seq<Decorator>)
      ensures this.name == name && this.decorators == decorators
    {
      this.name := name;
      this.decorators := decorators;
    }
  }

  /** A member the pass adds to the class: the static `listeners` getter. */
  datatype ClassElement = StaticGetter(getterName: string, listeners: seq<Listener>)

  /** Position of the first `@Listen` decorator, or `|decs|` when there is none. */
  function FirstListen(decs: seq<Decorator>): (i: nat)
    ensures i <= |decs|
    ensures i < |decs| ==> IsListen(decs[i])
    ensures forall k :: 0 <= k < i ==> !IsListen(decs[k])
  {
    if decs == [] then 0
    else if IsListen(decs[0]) then 0
    else 1 + FirstListen(decs[1..])
  }

  /** The member's decorators once `@Listen` is removed from it. */
  function RemoveListen(decs: seq<Decorator>): (r: seq<Decorator>)
    ensures forall k :: 0 <= k < |r| ==> !IsListen(r[k])
  {
    Filter(decs, d => !IsListen(d))
  }

  /**
   * What the `forEach` callback computes for one comma-separated name, given
   * the decorator's options and the member's name.
   */
  type Callback = (string, Option<ListenOptions>, string) -> Normalized

  /**
   * `callback` is the source's callback: `validateListener` on the trimmed
   * name. The member-level methods take the callback as a ghost parameter
   * pinned down by this predicate, and the member-level functions are stated
   * for any callback, so that reasoning about many names never has to unfold
   * `Normalize`.
   */
  ghost predicate IsListenCallback(callback: Callback) {
    forall e, o, m {:trigger Normalize(Trim(e), o, m)} :: callback(e, o, m) == Normalize(Trim(e), o, m)
  }

  /** The source's callback is one such callback. */
  lemma ListenCallbackExists()
    ensures IsListenCallback((e, o, m) => Normalize(Trim(e), o, m))
  {
  }

  /** The records for the comma-separated names, name after name. */
  function PiecesListeners(names: seq<string>, options: Option<ListenOptions>, methodName: string, callback: Callback): seq<Listener>
  {
    if names == [] then []
    else
      var last := callback(names[|names| - 1], options, methodName);
      PiecesListeners(names[..|names| - 1], options, methodName, callback) + [last.listener]
  }

  /** The diagnostics of the comma-separated names, name after name. */
  function PiecesDiagnostics(names: seq<string>, options: Option<ListenOptions>, methodName: string, callback: Callback): seq<Diagnostic>
  {
    if names == [] then []
    else
      var last := callback(names[|names| - 1], options, methodName);
      PiecesDiagnostics(names[..|names| - 1], options, methodName, callback) + last.diagnostics
  }

  /** The comma-list warning: one when the text splits into several names. */
  function CommaWarnings(names: seq<string>): (r: seq<Diagnostic>)
    ensures |r| <= 1
  {
    if |names| > 1 then [Diagnostic(Warn, CommaWarning)] else []
  }

  /** The records and the diagnostics one `@Listen(text, opts)` yields. */
  datatype Records = Records(listeners: seq<Listener>, diagnostics: seq<Diagnostic>)

  /** What the arguments `text` and `opts` of `@Listen` yield on a member called `methodName`. */
  function ListenTextOutcome(listenText: string, options: Option<ListenOptions>, methodName: string, callback: Callback): Records
  {
    var names := Split(listenText, ',');
    Records(
      PiecesListeners(names, options, methodName, callback),
      CommaWarnings(names) + PiecesDiagnostics(names, options, methodName, callback))
  }

  /** The member's remaining decorators, its records and its diagnostics. */
  datatype MemberResult = MemberResult(decorators: seq<Decorator>, listeners: seq<Listener>, diagnostics: seq<Diagnostic>)

  /** What `listenDecoratorToStatic` does to one member with the given decorators. */
  function MemberOutcome(memberName: string, decs: seq<Decorator>, callback: Callback): MemberResult
  {
    var i := FirstListen(decs);
    if i == |decs| then MemberResult(decs, [], [])
    else
      var t := ListenTextOutcome(decs[i].text, decs[i].options, memberName, callback);
      MemberResult(RemoveListen(decs), t.listeners, t.diagnostics)
  }

  /**
   * `listenDecoratorToStatic`: removes `@Listen` from the member, then handles
   * the decorator's arguments.
   */
  method ListenDecoratorToStatic(diagnostics: Sink<Diagnostic>, listeners: Sink<Listener>, prop: Member,
                                 ghost callback: Callback)
    requires IsListenCallback(callback)
    modifies diagnostics, listeners, prop
    ensures var r := MemberOutcome(prop.name, old(prop.decorators), callback);
      prop.decorators == r.decorators
      && listeners.items == old(listeners.items) + r.listeners
      && diagnostics.items == old(diagnostics.items) + r.diagnostics
  {
    var i := FirstListen(prop.decorators);
    if i == |prop.decorators| {
      return;
    }
    var listenDecorator := prop.decorators[i];
    prop.decorators := RemoveListen(prop.decorators);
    ListenText(diagnostics, listeners, listenDecorator.text, listenDecorator.options, prop.name, callback);
  }

  /**
   * The rest of `listenDecoratorToStatic`, on the decorator's arguments: pushes
   * the comma-list warning when there are several names, then the record of
   * each name in turn.
   */
  method ListenText(diagnostics: Sink<Diagnostic>, listeners: Sink<Listener>, listenText: string,
                    options: Option<ListenOptions>, methodName: string, ghost callback: Callback)
    requires IsListenCallback(callback)
    modifies diagnostics, listeners
    ensures var t := ListenTextOutcome(listenText, options, methodName, callback);
      listeners.items == old(listeners.items) + t.listeners
      && diagnostics.items == old(diagnostics.items) + t.diagnostics
  {
    var eventNames := Split(listenText, ',');
    if |eventNames| > 1 {
      diagnostics.Push(Diagnostic(Warn, CommaWarning));
    }
    ForEachName(diagnostics, listeners, eventNames, options, methodName, callback);
  }

  /** The `forEach` over the names: the callback on each name in turn. */
  method ForEachName(diagnostics: Sink<Diagnostic>, listeners: Sink<Listener>, eventNames: seq<string>,
                     options: Option<ListenOptions>, methodName: string, ghost callback: Callback)
    requires IsListenCallback(callback)
    modifies diagnostics, listeners
    ensures listeners.items == old(listeners.items) + PiecesListeners(eventNames, options, methodName, callback)
    ensures diagnostics.items == old(diagnostics.items) + PiecesDiagnostics(eventNames, options, methodName, callback)
  {
    var k := 0;
    while k < |eventNames|
      invariant 0 <= k <= |eventNames|
      invariant listeners.items == old(listeners.items) + PiecesListeners(eventNames[..k], options, methodName, callback)
      invariant diagnostics.items == old(diagnostics.items) + PiecesDiagnostics(eventNames[..k], options, methodName, callback)
    {
      ListenCallback(diagnostics, listeners, eventNames[k], options, methodName, callback);
      PiecesStep(eventNames, k, options, methodName, callback);
      k := k + 1;
    }
    assert eventNames[..k] == eventNames;
  }

  /** The `forEach` callback: `validateListener` on the trimmed name, its record pushed. */
  method ListenCallback(diagnostics: Sink<Diagnostic>, listeners: Sink<Listener>, eventName: string,
                        options: Option<ListenOptions>, methodName: string, ghost callback: Callback)
    requires IsListenCallback(callback)
    modifies diagnostics, listeners
    ensures listeners.items == old(listeners.items) + [callback(eventName, options, methodName).listener]
    ensures diagnostics.items == old(diagnostics.items) + callback(eventName, options, methodName).diagnostics
  {
    var listener := ValidateListener(diagnostics, Trim(eventName), options, methodName);
    listeners.Push(listener);
  }

  /** Taking one more name adds its record and its diagnostics at the end. */
  lemma PiecesStep(names: seq<string>, k: nat, options: Option<ListenOptions>, methodName: string, callback: Callback)
    requires k < |names|
    ensures PiecesListeners(names[..k + 1], options, methodName, callback)
      == PiecesListeners(names[..k], options, methodName, callback) + [callback(names[k], options, methodName).listener]
    ensures PiecesDiagnostics(names[..k + 1], options, methodName, callback)
      == PiecesDiagnostics(names[..k], options, methodName, callback) + callback(names[k], options, methodName).diagnostics
  {
    assert names[..k + 1][..k] == names[..k];
  }

  /** The records are one per comma-separated name, in order. */
  lemma {:induction false} PiecesListenersAt(names: seq<string>, options: Option<ListenOptions>, methodName: string, callback: Callback)
    ensures |PiecesListeners(names, options, methodName, callback)| == |names|
    ensures forall k :: 0 <= k < |names| ==>
      PiecesListeners(names, options, methodName, callback)[k] == callback(names[k], options, methodName).listener
  {
    if names != [] {
      var init := names[..|names| - 1];
      PiecesListenersAt(init, options, methodName, callback);
      assert forall k :: 0 <= k < |init| ==> init[k] == names[k];
    }
  }

  /** A member without `@Listen` is left as it is and contributes nothing. */
  lemma MemberWithoutListen(memberName: string, decs: seq<Decorator>, callback: Callback)
    requires forall k :: 0 <= k < |decs| ==> !IsListen(decs[k])
    ensures MemberOutcome(memberName, decs, callback) == MemberResult(decs, [], [])
  {
  }

  /**
   * A member with `@Listen(text, opts)`: every `@Listen` is removed and the
   * other decorators kept in order; there is one record per comma-separated
   * name of the first `@Listen`, in order; one warning comes first exactly when
   * the text has a comma, then the names' own diagnostics.
   */
  lemma MemberWithListen(memberName: string, decs: seq<Decorator>, callback: Callback)
    requires exists k :: 0 <= k < |decs| && IsListen(decs[k])
    ensures var d := decs[FirstListen(decs)];
      var names := Split(d.text, ',');
      var r := MemberOutcome(memberName, decs, callback);
      FirstListen(decs) < |decs|
      && r.decorators == Filter(decs, x => !IsListen(x))
      && |r.listeners| == |names|
      && (forall k :: 0 <= k < |names| ==> r.listeners[k] == callback(names[k], d.options, memberName).listener)
      && (',' in d.text ==> r.diagnostics == [Diagnostic(Warn, CommaWarning)] + PiecesDiagnostics(names, d.options, memberName, callback))
      && (',' !in d.text ==> r.diagnostics == PiecesDiagnostics(names, d.options, memberName, callback))
  {
    var i := FirstListen(decs);
    var k :| 0 <= k < |decs| && IsListen(decs[k]);
    assert i <= k;
    var d := decs[i];
    SplitMany(d.text, ',');
    PiecesListenersAt(Split(d.text, ','), d.options, memberName, callback);
  }

  /** After the pass a member has no `@Listen` left, so a second pass adds nothing. */
  lemma MemberOutcomeSettles(memberName: string, decs: seq<Decorator>, callback: Callback)
    ensures var once := MemberOutcome(memberName, decs, callback);
      forall k :: 0 <= k < |once.decorators| ==> !IsListen(once.decorators[k])
    ensures var once := MemberOutcome(memberName, decs, callback);
      MemberOutcome(memberName, once.decorators, callback) == MemberResult(once.decorators, [], [])
  {
    var once := MemberOutcome(memberName, decs, callback);
    if FirstListen(decs) == |decs| {
      assert forall k :: 0 <= k < |decs| ==> !IsListen(decs[k]);
    }
    MemberWithoutListen(memberName, once.decorators, callback);
  }

  // ---------------------------------------------------------------------------
  // The pass over the class's decorated members
  // ---------------------------------------------------------------------------

  /** The decorators of each of the members. */
  function DecoratorsOf(props: seq<Member>): (r: map<Member, seq<Decorator>>)
    reads set m | m in props
    ensures forall m :: m in props ==> m in r && r[m] == m.decorators
    ensures forall m :: m in r ==> m in props
  {
    map m | m in props :: m.decorators
  }

  /**
   * The state of the pass over the members: each member's decorators, and
   * the records and the diagnostics pushed so far.
   */
  datatype Pass = Pass(decorators: map<Member, seq<Decorator>>, listeners: seq<Listener>, diagnostics: seq<Diagnostic>)

  /** `listenDecoratorToStatic` on each member in turn, from the state `pass`. */
  function ScanMembers(props: seq<Member>, pass: Pass, callback: Callback): (r: Pass)
    requires forall k :: 0 <= k < |props| ==> props[k] in pass.decorators
    ensures r.decorators.Keys == pass.decorators.Keys
    decreases |props|
  {
    if props == [] then pass
    else
      var p := props[0];
      var o := MemberOutcome(p.name, pass.decorators[p], callback);
      ScanMembers(props[1..], Pass(pass.decorators[p := o.decorators], pass.listeners + o.listeners, pass.diagnostics + o.diagnostics), callback)
  }

  /** The class members the pass adds: the `listeners` getter, when there is any record. */
  function ListenersGetter(listeners: seq<Listener>): (r: seq<ClassElement>)
    ensures |r| <= 1
    ensures r != [] <==> listeners != []
    ensures forall k :: 0 <= k < |r| ==> r[k] == StaticGetter("listeners", listeners)
  {
    if |listeners| > 0 then [StaticGetter("listeners", listeners)] else []
  }

  /** One member more: its outcome is applied to the state, then the pass goes on. */
  lemma ScanStep(props: seq<Member>, k: nat, pass: Pass, callback: Callback)
    requires k < |props|
    requires forall j :: 0 <= j < |props| ==> props[j] in pass.decorators
    ensures var p := props[k];
      var o := MemberOutcome(p.name, pass.decorators[p], callback);
      ScanMembers(props[k..], pass, callback)
      == ScanMembers(props[k + 1..], Pass(pass.decorators[p := o.decorators], pass.listeners + o.listeners, pass.diagnostics + o.diagnostics), callback)
  {
    assert props[k..][0] == props[k];
    assert props[k..][1..] == props[k + 1..];
  }

  /**
   * `listenDecoratorsToStatic`: runs `listenDecoratorToStatic` on every
   * decorated member, in order, collecting the records in a fresh array, and
   * adds the static `listeners` getter to the class when that array is not
   * empty.
   */
  method ListenDecoratorsToStatic(diagnostics: Sink<Diagnostic>, decoratedProps: seq<Member>, newMembers: Sink<ClassElement>,
                                  ghost callback: Callback)
    requires IsListenCallback(callback)
    modifies diagnostics, newMembers, set m | m in decoratedProps
    ensures var r := ScanMembers(decoratedProps, Pass(old(DecoratorsOf(decoratedProps)), [], old(diagnostics.items)), callback);
      DecoratorsOf(decoratedProps) == r.decorators
      && diagnostics.items == r.diagnostics
      && newMembers.items == old(newMembers.items) + ListenersGetter(r.listeners)
  {
    var listeners := new Sink<Listener>();
    VisitMembers(diagnostics, listeners, decoratedProps, callback);
    if |listeners.items| > 0 {
      newMembers.Push(StaticGetter("listeners", listeners.items));
    }
  }

  /** The `forEach` over the decorated members. */
  method VisitMembers(diagnostics: Sink<Diagnostic>, listeners: Sink<Listener>, decoratedProps: seq<Member>,
                      ghost callback: Callback)
    requires IsListenCallback(callback)
    modifies diagnostics, listeners, set m | m in decoratedProps
    ensures var r := ScanMembers(decoratedProps, Pass(old(DecoratorsOf(decoratedProps)), old(listeners.items), old(diagnostics.items)), callback);
      DecoratorsOf(decoratedProps) == r.decorators
      && listeners.items == r.listeners
      && diagnostics.items == r.diagnostics
  {
    ghost var pass0 := Pass(DecoratorsOf(decoratedProps), listeners.items, diagnostics.items);
    var k := 0;
    while k < |decoratedProps|
      invariant 0 <= k <= |decoratedProps|
      invariant ScanMembers(decoratedProps[k..], Pass(DecoratorsOf(decoratedProps), listeners.items, diagnostics.items), callback)
        == ScanMembers(decoratedProps, pass0, callback)
    {
      VisitMember(diagnostics, listeners, decoratedProps, k, callback);
      k := k + 1;
    }
    assert decoratedProps[k..] == [];
  }

  /** One turn of the `forEach` over the decorated members: the pass moves past member `k`. */
  method VisitMember(diagnostics: Sink<Diagnostic>, listeners: Sink<Listener>, decoratedProps: seq<Member>, k: nat,
                     ghost callback: Callback)
    requires IsListenCallback(callback)
    requires k < |decoratedProps|
    modifies diagnostics, listeners, decoratedProps[k]
    ensures ScanMembers(decoratedProps[k + 1..], Pass(DecoratorsOf(decoratedProps), listeners.items, diagnostics.items), callback)
      == ScanMembers(decoratedProps[k..], Pass(old(DecoratorsOf(decoratedProps)), old(listeners.items), old(diagnostics.items)), callback)
  {
    ghost var before := Pass(DecoratorsOf(decoratedProps), listeners.items, diagnostics.items);
    var prop := decoratedProps[k];
    ListenDecoratorToStatic(diagnostics, listeners, prop, callback);
    ScanStep(decoratedProps, k, before, callback);
    forall m | m in decoratedProps
      ensures DecoratorsOf(decoratedProps)[m] == before.decorators[prop := prop.decorators][m]
    {
    }
    assert DecoratorsOf(decoratedProps) == before.decorators[prop := prop.decorators];
  }

  /** The member carries a `@Listen` decorator. */
  predicate HasListen(decs: seq<Decorator>) {
    FirstListen(decs) < |decs|
  }

  /** A member yields a record exactly when it carries `@Listen`. */
  lemma MemberYieldsRecords(memberName: string, decs: seq<Decorator>, callback: Callback)
    ensures MemberOutcome(memberName, decs, callback).listeners != [] <==> HasListen(decs)
  {
    if HasListen(decs) {
      var d := decs[FirstListen(decs)];
      PiecesListenersAt(Split(d.text, ','), d.options, memberName, callback);
    }
  }

  /** The pass only appends to the records and to the diagnostics. */
  lemma {:induction false} ScanAppends(props: seq<Member>, pass: Pass, callback: Callback)
    requires forall k :: 0 <= k < |props| ==> props[k] in pass.decorators
    ensures var r := ScanMembers(props, pass, callback);
      |pass.listeners| <= |r.listeners| && r.listeners[..|pass.listeners|] == pass.listeners
      && |pass.diagnostics| <= |r.diagnostics| && r.diagnostics[..|pass.diagnostics|] == pass.diagnostics
    decreases |props|
  {
    if props != [] {
      var p := props[0];
      var o := MemberOutcome(p.name, pass.decorators[p], callback);
      var next := Pass(pass.decorators[p := o.decorators], pass.listeners + o.listeners, pass.diagnostics + o.diagnostics);
      ScanAppends(props[1..], next, callback);
      var r := ScanMembers(props, pass, callback);
      assert r.listeners[..|next.listeners|][..|pass.listeners|] == r.listeners[..|pass.listeners|];
      assert r.diagnostics[..|next.diagnostics|][..|pass.diagnostics|] == r.diagnostics[..|pass.diagnostics|];
    }
  }

  /** Members the pass does not visit keep their decorators. */
  lemma {:induction false} ScanKeepsOthers(props: seq<Member>, pass: Pass, callback: Callback, m: Member)
    requires forall k :: 0 <= k < |props| ==> props[k] in pass.decorators
    requires m in pass.decorators && m !in props
    ensures ScanMembers(props, pass, callback).decorators[m] == pass.decorators[m]
    decreases |props|
  {
    if props != [] {
      var p := props[0];
      var o := MemberOutcome(p.name, pass.decorators[p], callback);
      var next := Pass(pass.decorators[p := o.decorators], pass.listeners + o.listeners, pass.diagnostics + o.diagnostics);
      assert m !in props[1..];
      ScanKeepsOthers(props[1..], next, callback, m);
    }
  }

  /** After the pass no visited member carries `@Listen`. */
  lemma {:induction false} ScanStripsListen(props: seq<Member>, pass: Pass, callback: Callback)
    requires forall k :: 0 <= k < |props| ==> props[k] in pass.decorators
    ensures var r := ScanMembers(props, pass, callback);
      forall k :: 0 <= k < |props| ==> !HasListen(r.decorators[props[k]])
    decreases |props|
  {
    if props != [] {
      var p := props[0];
      var o := MemberOutcome(p.name, pass.decorators[p], callback);
      var next := Pass(pass.decorators[p := o.decorators], pass.listeners + o.listeners, pass.diagnostics + o.diagnostics);
      ScanStripsListen(props[1..], next, callback);
      var r := ScanMembers(props, pass, callback);
      assert r == ScanMembers(props[1..], next, callback);
      MemberOutcomeSettles(p.name, pass.decorators[p], callback);
      if p !in props[1..] {
        ScanKeepsOthers(props[1..], next, callback, p);
      }
      forall k | 0 <= k < |props|
        ensures !HasListen(r.decorators[props[k]])
      {
        if k > 0 {
          assert props[k] == props[1..][k - 1];
        } else if p in props[1..] {
          var j :| 0 <= j < |props[1..]| && props[1..][j] == p;
        }
      }
    }
  }

  /** When no visited member carries `@Listen`, the pass changes nothing. */
  lemma {:induction false} ScanNoListen(props: seq<Member>, pass: Pass, callback: Callback)
    requires forall k :: 0 <= k < |props| ==> props[k] in pass.decorators
    requires forall k :: 0 <= k < |props| ==> !HasListen(pass.decorators[props[k]])
    ensures ScanMembers(props, pass, callback) == pass
    decreases |props|
  {
    if props != [] {
      var p := props[0];
      var decs := pass.decorators[p];
      assert forall k :: 0 <= k < |decs| ==> !IsListen(decs[k]);
      MemberWithoutListen(p.name, decs, callback);
      assert pass.decorators[p := decs] == pass.decorators;
      assert Pass(pass.decorators, pass.listeners + [], pass.diagnostics + []) == pass;
      ScanNoListen(props[1..], pass, callback);
    }
  }

  /** A second pass over the same members adds no record, no diagnostic and no getter. */
  lemma ScanSettles(props: seq<Member>, pass: Pass, callback: Callback)
    requires forall k :: 0 <= k < |props| ==> props[k] in pass.decorators
    ensures var once := ScanMembers(props, pass, callback);
      ScanMembers(props, Pass(once.decorators, [], []), callback) == Pass(once.decorators, [], [])
  {
    var once := ScanMembers(props, pass, callback);
    ScanStripsListen(props, pass, callback);
    ScanNoListen(props, Pass(once.decorators, [], []), callback);
  }

  /** The records of the members, member after member. */
  function MembersListeners(props: seq<Member>, decs: map<Member, seq<Decorator>>, callback: Callback): seq<Listener>
    requires forall k :: 0 <= k < |props| ==> props[k] in decs
  {
    if props == [] then []
    else MemberOutcome(props[0].name, decs[props[0]], callback).listeners + MembersListeners(props[1..], decs, callback)
  }

  /** The records of members other than `p` do not depend on `p`'s decorators. */
  lemma {:induction false} MembersListenersFrame(props: seq<Member>, decs: map<Member, seq<Decorator>>, callback: Callback,
                                                p: Member, v: seq<Decorator>)
    requires forall k :: 0 <= k < |props| ==> props[k] in decs
    requires p !in props
    ensures MembersListeners(props, decs[p := v], callback) == MembersListeners(props, decs, callback)
    decreases |props|
  {
    if props != [] {
      assert p !in props[1..];
      MembersListenersFrame(props[1..], decs, callback, p, v);
    }
  }

  /**
   * When each member is visited once, the records are those of the members in
   * their order in the class, each member's in the order of its names.
   */
  lemma {:induction false} ScanInOrder(props: seq<Member>, pass: Pass, callback: Callback)
    requires forall k :: 0 <= k < |props| ==> props[k] in pass.decorators
    requires forall i, j :: 0 <= i < j < |props| ==> props[i] != props[j]
    ensures ScanMembers(props, pass, callback).listeners == pass.listeners + MembersListeners(props, pass.decorators, callback)
    decreases |props|
  {
    if props != [] {
      var p := props[0];
      var o := MemberOutcome(p.name, pass.decorators[p], callback);
      var next := Pass(pass.decorators[p := o.decorators], pass.listeners + o.listeners, pass.diagnostics + o.diagnostics);
      var rest := props[1..];
      assert forall i, j :: 0 <= i < j < |rest| ==> rest[i] == props[i + 1] && rest[j] == props[j + 1];
      ScanInOrder(rest, next, callback);
      assert p !in rest;
      MembersListenersFrame(rest, pass.decorators, callback, p, o.decorators);
      assert ScanMembers(props, pass, callback) == ScanMembers(rest, next, callback);
      var tail := MembersListeners(rest, pass.decorators, callback);
      assert MembersListeners(props, pass.decorators, callback) == o.listeners + tail;
      AppendAssociative(pass.listeners, o.listeners, tail);
    }
  }

  /** The getter is added exactly when some decorated member carries `@Listen`. */
  lemma {:induction false} ScanYieldsRecords(props: seq<Member>, pass: Pass, callback: Callback)
    requires forall k :: 0 <= k < |props| ==> props[k] in pass.decorators
    requires pass.listeners == []
    ensures ScanMembers(props, pass, callback).listeners != []
      <==> exists k :: 0 <= k < |props| && HasListen(pass.decorators[props[k]])
    decreases |props|
  {
    if props != [] {
      var p := props[0];
      var o := MemberOutcome(p.name, pass.decorators[p], callback);
      var next := Pass(pass.decorators[p := o.decorators], pass.listeners + o.listeners, pass.diagnostics + o.diagnostics);
      MemberYieldsRecords(p.name, pass.decorators[p], callback);
      if o.listeners == [] {
        assert !HasListen(pass.decorators[p]);
        assert next.decorators == pass.decorators;
        ScanYieldsRecords(props[1..], next, callback);
        if exists k :: 0 <= k < |props| && HasListen(pass.decorators[props[k]]) {
          var k :| 0 <= k < |props| && HasListen(pass.decorators[props[k]]);
          assert props[k] == props[1..][k - 1];
        }
      } else {
        ScanAppends(props[1..], next, callback);
      }
    }
  }
}
