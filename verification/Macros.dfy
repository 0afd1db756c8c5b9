/** Macro substitution in untyped configuration values. A string is a sequence of
    characters and `${name}` placeholders. */
module Macros {

  datatype Token = Ch(c: char) | Ref(name: string)

  type Text = seq<Token>

  /** `kind` is a scalar's type and `shown` how it prints. */
  datatype Value =
    | Str(text: Text)
    | Scalar(kind: string, shown: string)
    | Tree(fields: map<string, Value>)
    | List(items: seq<Value>)

  datatype Entry = Entry(name: string, value: Value)

  type MacroList = seq<Entry>

  /** A value as it prints. Declared macros are strings or scalars. */
  function Shown(v: Value): Text
  {
    match v
    case Str(text) => text
    case Scalar(_, shown) => seq(|shown|, i requires 0 <= i < |shown| => Ch(shown[i]))
    case _ => []
  }

  /** What a declaration may hold: a string, or a number or boolean. */
  predicate Plain(v: Value) { v.Str? || (v.Scalar? && v.shown != "") }

  ghost predicate Declared(macros: MacroList)
  {
    && (forall i :: 0 <= i < |macros| ==> Plain(macros[i].value))
    && forall i, j :: 0 <= i < j < |macros| ==> macros[i].name != macros[j].name
  }

  // -------------------------------------------------------------------- the pass

  function ReplaceAll(text: Text, name: string, shown: Text): Text
  {
    if text == [] then []
    else (if text[0] == Ref(name) then shown else [text[0]]) + ReplaceAll(text[1..], name, shown)
  }

  /** One macro in one value: a string that is exactly its placeholder becomes the
      macro's own value; inside other strings its text goes in; map keys stay. */
  function Substitute(v: Value, name: string, value: Value): Value
  {
    match v
    case Str(text) => if text == [Ref(name)] then value else Str(ReplaceAll(text, name, Shown(value)))
    case Scalar(_, _) => v
    case Tree(fields) => Tree(map k | k in fields :: Substitute(fields[k], name, value))
    case List(items) => List(seq(|items|, i requires 0 <= i < |items| => Substitute(items[i], name, value)))
  }

  /** Last declared first. */
  function Pass(macros: MacroList, v: Value): Value
  {
    if macros == [] then v
    else
      var last := macros[|macros| - 1];
      Pass(macros[..|macros| - 1], Substitute(v, last.name, last.value))
  }

  method SubstituteMacroList(v: Value, macros: MacroList) returns (resolved: Value)
    ensures resolved == Pass(macros, v)
  {
    resolved := v;
    var i := |macros|;
    assert macros[..|macros|] == macros;
    while i > 0
      invariant 0 <= i <= |macros|
      invariant Pass(macros, v) == Pass(macros[..i], resolved)
    {
      i := i - 1;
      assert macros[..i + 1][..i] == macros[..i];
      resolved := Substitute(resolved, macros[i].name, macros[i].value);
    }
  }

  // ------------------------------------------------------------ recursive meaning

  /** Where a name is declared; the length of the list when it is not. */
  function Index(macros: MacroList, name: string): (i: nat)
    ensures i <= |macros| && (i < |macros| ==> macros[i].name == name)
    ensures forall j :: 0 <= j < i ==> macros[j].name != name
  {
    if macros == [] || macros[0].name == name then 0 else 1 + Index(macros[1..], name)
  }

  /** Full expansion: every listed placeholder stands for the full expansion of its
      macro's value over the macros declared before it. */
  function Full(macros: MacroList, v: Value): Value
    decreases |macros|, 2, v
  {
    match v
    case Str(text) =>
      if |text| == 1 && text[0].Ref? && Index(macros, text[0].name) < |macros| then
        var i := Index(macros, text[0].name);
        Full(macros[..i], macros[i].value)
      else Str(FullText(macros, text))
    case Scalar(_, _) => v
    case Tree(fields) => Tree(map k | k in fields :: Full(macros, fields[k]))
    case List(items) => List(seq(|items|, i requires 0 <= i < |items| => Full(macros, items[i])))
  }

  function FullText(macros: MacroList, text: Text): Text
    decreases |macros|, 1, text
  {
    if text == [] then [] else FullToken(macros, text[0]) + FullText(macros, text[1..])
  }

  function FullToken(macros: MacroList, t: Token): Text
    decreases |macros|, 0
  {
    if t.Ch? || Index(macros, t.name) == |macros| then [t]
    else
      var i := Index(macros, t.name);
      Shown(Full(macros[..i], macros[i].value))
  }

  /** A macro that prints as nothing is declared after one that is not a string. */
  ghost predicate Erases(macros: MacroList, j: nat, k: nat)
  {
    j < k < |macros| && macros[j].value.Scalar? && macros[k].value == Str([])
  }

  ghost predicate Sound(macros: MacroList)
  {
    forall j, k :: !Erases(macros, j, k)
  }

  lemma {:induction false} FullTextConcat(macros: MacroList, a: Text, b: Text)
    ensures FullText(macros, a + b) == FullText(macros, a) + FullText(macros, b)
  {
    if a == [] {
      assert a + b == b;
    } else {
      assert (a + b)[1..] == a[1..] + b;
      FullTextConcat(macros, a[1..], b);
    }
  }

  lemma {:induction false} FullShown(macros: MacroList, v: Value)
    requires Plain(v)
    ensures Shown(Full(macros, v)) == FullText(macros, Shown(v))
  {
    if v.Scalar? {
      FullChars(macros, Shown(v));
    } else if |v.text| == 1 {
      assert v.text[1..] == [];
      assert FullText(macros, v.text) == FullToken(macros, v.text[0]) + [];
    }
  }

  lemma {:induction false} FullChars(macros: MacroList, text: Text)
    requires forall i :: 0 <= i < |text| ==> text[i].Ch?
    ensures FullText(macros, text) == text
  {
    if text != [] {
      FullChars(macros, text[1..]);
    }
  }

  /** A list that gained a last macro declares the earlier names where it did. */
  lemma {:induction false} IndexGrows(macros: MacroList, e: Entry, name: string)
    ensures Index(macros + [e], name) ==
      if Index(macros, name) < |macros| then Index(macros, name) else if e.name == name then |macros| else |macros| + 1
  {
    if macros != [] {
      assert (macros + [e])[1..] == macros[1..] + [e];
      IndexGrows(macros[1..], e, name);
    }
  }

  lemma {:induction false} TokenGrows(macros: MacroList, e: Entry, t: Token)
    requires Index(macros, e.name) == |macros| && Plain(e.value)
    ensures FullToken(macros + [e], t) == FullText(macros, if t == Ref(e.name) then Shown(e.value) else [t])
  {
    if t.Ref? {
      IndexGrows(macros, e, t.name);
      assert forall i :: 0 <= i <= |macros| ==> (macros + [e])[..i] == macros[..i];
      assert macros[..|macros|] == macros;
    }
    if t == Ref(e.name) {
      FullShown(macros, e.value);
    } else {
      assert [t][1..] == [];
      assert FullText(macros, [t]) == FullToken(macros, t) + [];
    }
  }

  /** In text, substituting the last macro first changes nothing. */
  lemma {:induction false} TextGrows(macros: MacroList, e: Entry, text: Text)
    requires Index(macros, e.name) == |macros| && Plain(e.value)
    ensures FullText(macros, ReplaceAll(text, e.name, Shown(e.value))) == FullText(macros + [e], text)
  {
    if text != [] {
      TextGrows(macros, e, text[1..]);
      TokenGrows(macros, e, text[0]);
      FullTextConcat(macros, if text[0] == Ref(e.name) then Shown(e.value) else [text[0]],
                     ReplaceAll(text[1..], e.name, Shown(e.value)));
    }
  }

  /** Without scalars a string expands to a string. */
  lemma {:induction false} StringsStay(macros: MacroList, text: Text)
    requires forall i :: 0 <= i < |macros| ==> macros[i].value.Str?
    ensures Full(macros, Str(text)) == Str(FullText(macros, text))
    decreases |macros|
  {
    if |text| == 1 && text[0].Ref? && Index(macros, text[0].name) < |macros| {
      var i := Index(macros, text[0].name);
      StringsStay(macros[..i], macros[i].value.text);
      FullShown(macros, Str(text));
    }
  }

  lemma {:induction false} ReplaceSize(text: Text, name: string, shown: Text)
    requires shown != []
    ensures |ReplaceAll(text, name, shown)| >= |text|
    ensures Ref(name) !in text ==> ReplaceAll(text, name, shown) == text
  {
    if text != [] {
      ReplaceSize(text[1..], name, shown);
    }
  }

  lemma {:induction false} ReplaceNothing(text: Text, name: string, shown: Text)
    requires Ref(name) !in text
    ensures ReplaceAll(text, name, shown) == text
  {
    if text != [] {
      ReplaceNothing(text[1..], name, shown);
    }
  }

  /** A string of several tokens, or of one character, is never just a placeholder. */
  predicate Composite(macros: MacroList, text: Text)
  {
    !(|text| == 1 && text[0].Ref? && Index(macros, text[0].name) < |macros|)
  }

  lemma {:induction false} CompositeStays(macros: MacroList, text: Text, name: string, shown: Text)
    requires shown != [] && !(|text| == 1 && text[0].Ref?)
    ensures Composite(macros, ReplaceAll(text, name, shown))
  {
    ReplaceSize(text, name, shown);
    if |text| == 1 {
      ReplaceNothing(text, name, shown);
    }
  }

  lemma {:induction false} StrGrows(macros: MacroList, e: Entry, text: Text)
    requires Index(macros, e.name) == |macros| && Plain(e.value)
    requires e.value == Str([]) ==> forall i :: 0 <= i < |macros| ==> macros[i].value.Str?
    ensures Full(macros, Substitute(Str(text), e.name, e.value)) == Full(macros + [e], Str(text))
  {
    if |text| == 1 && text[0].Ref? {
      OneGrows(macros, e, text[0].name);
      assert text == [Ref(text[0].name)];
    } else {
      TextGrows(macros, e, text);
      var replaced := ReplaceAll(text, e.name, Shown(e.value));
      if e.value == Str([]) {
        StringsStay(macros, replaced);
      } else {
        CompositeStays(macros, text, e.name, Shown(e.value));
      }
    }
  }

  lemma {:induction false} OneGrows(macros: MacroList, e: Entry, name: string)
    requires Index(macros, e.name) == |macros| && Plain(e.value)
    ensures Full(macros, Substitute(Str([Ref(name)]), e.name, e.value)) == Full(macros + [e], Str([Ref(name)]))
  {
    var text := [Ref(name)];
    IndexGrows(macros, e, name);
    if name == e.name {
      assert (macros + [e])[..|macros|] == macros;
    } else {
      ReplaceNothing(text, e.name, Shown(e.value));
      var i := Index(macros, name);
      if i < |macros| {
        assert (macros + [e])[..i] == macros[..i];
      } else {
        assert text[1..] == [];
        assert FullText(macros, text) == FullToken(macros, text[0]) + FullText(macros, text[1..]);
        assert FullText(macros + [e], text) == FullToken(macros + [e], text[0]) + FullText(macros + [e], text[1..]);
      }
    }
  }

  /** Substituting the last macro first does not change what a value expands to. */
  lemma {:induction false} ValueGrows(macros: MacroList, e: Entry, v: Value)
    requires Index(macros, e.name) == |macros| && Plain(e.value)
    requires e.value == Str([]) ==> forall i :: 0 <= i < |macros| ==> macros[i].value.Str?
    ensures Full(macros, Substitute(v, e.name, e.value)) == Full(macros + [e], v)
    decreases v
  {
    match v {
      case Str(text) => StrGrows(macros, e, text);
      case Scalar(_, _) =>
      case Tree(fields) =>
        forall k | k in fields
          ensures Full(macros, Substitute(fields[k], e.name, e.value)) == Full(macros + [e], fields[k])
        {
          ValueGrows(macros, e, fields[k]);
        }
        var sub := Substitute(v, e.name, e.value).fields;
        assert Full(macros, Tree(sub)).fields == Full(macros + [e], v).fields;
      case List(items) =>
        forall i | 0 <= i < |items|
          ensures Full(macros, Substitute(items[i], e.name, e.value)) == Full(macros + [e], items[i])
        {
          ValueGrows(macros, e, items[i]);
        }
        var sub := Substitute(v, e.name, e.value).items;
        assert Full(macros, List(sub)).items == Full(macros + [e], v).items;
    }
  }

  lemma {:induction false} NotListed(macros: MacroList, name: string)
    requires forall i :: 0 <= i < |macros| ==> macros[i].name != name
    ensures Index(macros, name) == |macros|
  {
    var i := Index(macros, name);
  }

  /** The single pass is full recursive expansion, at any depth of nesting, unless a
      macro that prints as nothing is declared after one that is not a string. */
  lemma {:induction false} PassIsFullExpansion(macros: MacroList, v: Value)
    requires Declared(macros) && Sound(macros)
    ensures Pass(macros, v) == Full(macros, v)
    decreases |macros|
  {
    if macros == [] {
      NothingToExpand(v);
    } else {
      var before, e := macros[..|macros| - 1], macros[|macros| - 1];
      assert macros == before + [e];
      assert Declared(before);
      assert Sound(before) by {
        assert forall j, k :: Erases(before, j, k) ==> Erases(macros, j, k);
      }
      NotListed(before, e.name);
      if e.value == Str([]) {
        forall j | 0 <= j < |before|
          ensures before[j].value.Str?
        {
          assert !Erases(macros, j, |before|);
          assert Plain(macros[j].value);
        }
      }
      PassIsFullExpansion(before, Substitute(v, e.name, e.value));
      ValueGrows(before, e, v);
    }
  }

  lemma {:induction false} NoMacros(text: Text)
    ensures FullText([], text) == text
  {
    if text != [] {
      NoMacros(text[1..]);
    }
  }

  lemma {:induction false} NothingToExpand(v: Value)
    ensures Full([], v) == v
  {
    match v {
      case Str(text) => NoMacros(text);
      case Scalar(_, _) =>
      case Tree(fields) =>
        forall k | k in fields
          ensures Full([], fields[k]) == fields[k]
        {
          NothingToExpand(fields[k]);
        }
        assert Full([], v).fields == fields;
      case List(items) =>
        forall i | 0 <= i < |items|
          ensures Full([], items[i]) == items[i]
        {
          NothingToExpand(items[i]);
        }
        assert Full([], v).items == items;
    }
  }

  // --------------------------------------------------- where the two part company

  lemma {:induction false} PassSplits(a: MacroList, b: MacroList, v: Value)
    ensures Pass(a + b, v) == Pass(a, Pass(b, v))
    decreases |b|
  {
    if b == [] {
      assert a + b == a;
    } else {
      var init, e := b[..|b| - 1], b[|b| - 1];
      assert (a + b)[..|a + b| - 1] == a + init;
      PassSplits(a, init, Substitute(v, e.name, e.value));
    }
  }

  /** Macros that a string does not mention leave it alone. */
  lemma {:induction false} PassIgnores(macros: MacroList, text: Text)
    requires forall i :: 0 <= i < |macros| ==> Ref(macros[i].name) !in text
    ensures Pass(macros, Str(text)) == Str(text)
  {
    if macros != [] {
      var e := macros[|macros| - 1];
      assert text != [Ref(e.name)];
      ReplaceNothing(text, e.name, Shown(e.value));
      PassIgnores(macros[..|macros| - 1], text);
    }
  }

  lemma {:induction false} PassKeepsScalars(macros: MacroList, v: Value)
    requires v.Scalar?
    ensures Pass(macros, v) == v
  {
    if macros != [] {
      PassKeepsScalars(macros[..|macros| - 1], v);
    }
  }

  lemma {:induction false} OthersElsewhere(macros: MacroList, at: nat)
    requires Declared(macros) && at < |macros|
    ensures forall i :: 0 <= i < |macros| && i != at ==> macros[i].name != macros[at].name
  {
  }

  /** A value that is exactly one listed placeholder takes over its macro's type: a
      number or boolean stays one. */
  lemma {:induction false} ExactPlaceholderKeepsType(macros: MacroList, i: nat)
    requires Declared(macros) && i < |macros| && macros[i].value.Scalar?
    ensures Pass(macros, Str([Ref(macros[i].name)])) == macros[i].value
  {
    var v := Str([Ref(macros[i].name)]);
    OthersElsewhere(macros, i);
    assert macros == macros[..i] + ([macros[i]] + macros[i + 1..]);
    PassSplits(macros[..i], [macros[i]] + macros[i + 1..], v);
    PassSplits([macros[i]], macros[i + 1..], v);
    PassIgnores(macros[i + 1..], v.text);
    PassOne(macros[i], v);
    PassKeepsScalars(macros[..i], macros[i].value);
  }

  /** Placeholders of a macro and of a later one that prints as nothing, side by side:
      the pass first erases the second and then takes the first for the whole value,
      so the value turns into a number or boolean instead of its text. */
  lemma {:induction false} ErasingParts(macros: MacroList, j: nat, k: nat)
    requires Declared(macros) && Erases(macros, j, k)
    ensures
      var v := Str([Ref(macros[j].name), Ref(macros[k].name)]);
      Pass(macros, v).Scalar? && Full(macros, v).Str?
  {
    var x, y := macros[j].name, macros[k].name;
    OthersElsewhere(macros, k);
    ErasedTail(macros, k, x);
    assert Declared(macros[..k]);
    ExactPlaceholderKeepsType(macros[..k], j);
  }

  lemma {:induction false} ErasedTail(macros: MacroList, k: nat, x: string)
    requires Declared(macros) && k < |macros| && macros[k].value == Str([])
    requires x != macros[k].name && forall i :: k < i < |macros| ==> macros[i].name != x
    ensures Pass(macros, Str([Ref(x), Ref(macros[k].name)])) == Pass(macros[..k], Str([Ref(x)]))
  {
    var y, rest := macros[k].name, macros[k + 1..];
    var v := Str([Ref(x), Ref(y)]);
    assert macros == macros[..k] + ([macros[k]] + rest);
    PassSplits(macros[..k], [macros[k]] + rest, v);
    PassSplits([macros[k]], rest, v);
    PassIgnores(rest, v.text);
    PassOne(macros[k], v);
    ErasesOne(x, y);
  }

  lemma {:induction false} PassOne(e: Entry, v: Value)
    ensures Pass([e], v) == Substitute(v, e.name, e.value)
  {
    assert [e][..0] == [];
  }

  lemma {:induction false} ErasesOne(x: string, y: string)
    requires x != y
    ensures ReplaceAll([Ref(x), Ref(y)], y, []) == [Ref(x)]
  {
    assert [Ref(y)][1..] == [];
    assert ReplaceAll([Ref(y)], y, []) == [];
    assert [Ref(x), Ref(y)][1..] == [Ref(y)];
  }

  /** The pass is full recursive expansion for every value exactly when no macro that
      prints as nothing is declared after one that is not a string. */
  lemma {:induction false} PassIsFullExactlyWhenSound(macros: MacroList)
    requires Declared(macros)
    ensures (forall v :: Pass(macros, v) == Full(macros, v)) <==> Sound(macros)
  {
    if Sound(macros) {
      forall v
        ensures Pass(macros, v) == Full(macros, v)
      {
        PassIsFullExpansion(macros, v);
      }
    } else {
      var j, k :| Erases(macros, j, k);
      ErasingParts(macros, j, k);
    }
  }

  /** Inside other text a placeholder gives way to its macro as it prints: a string as it
      is, a number or boolean character by character. */
  lemma {:induction false} PartTakesText(e: Entry, a: Text, b: Text)
    requires a + b != [] && Ref(e.name) !in a && Ref(e.name) !in b && Plain(e.value)
    ensures
      Pass([e], Str(a + [Ref(e.name)] + b)) ==
        Str(a + (if e.value.Str? then e.value.text
                 else seq(|e.value.shown|, i requires 0 <= i < |e.value.shown| => Ch(e.value.shown[i]))) + b)
  {
    var shown, text := Shown(e.value), a + [Ref(e.name)] + b;
    PassOne(e, Str(text));
    assert |text| > 1;
    ReplaceOne(a, b, e.name, shown);
  }

  lemma {:induction false} ReplaceOne(a: Text, b: Text, name: string, shown: Text)
    requires Ref(name) !in a && Ref(name) !in b
    ensures ReplaceAll(a + [Ref(name)] + b, name, shown) == a + shown + b
  {
    ReplaceConcat(a + [Ref(name)], b, name, shown);
    ReplaceConcat(a, [Ref(name)], name, shown);
    ReplaceNothing(a, name, shown);
    ReplaceNothing(b, name, shown);
    assert [Ref(name)][1..] == [];
    assert ReplaceAll([Ref(name)], name, shown) == shown + [];
  }

  lemma {:induction false} ReplaceConcat(a: Text, b: Text, name: string, shown: Text)
    ensures ReplaceAll(a + b, name, shown) == ReplaceAll(a, name, shown) + ReplaceAll(b, name, shown)
  {
    if a == [] {
      assert a + b == b;
    } else {
      assert (a + b)[1..] == a[1..] + b;
      ReplaceConcat(a[1..], b, name, shown);
    }
  }

  // -------------------------------------------------------------- nothing is left

  function Names(macros: MacroList): set<string> { set i | 0 <= i < |macros| :: macros[i].name }

  function TextRefs(text: Text): set<string> { set t | t in text && t.Ref? :: t.name }

  function Refs(v: Value): set<string>
  {
    match v
    case Str(text) => TextRefs(text)
    case Scalar(_, _) => {}
    case Tree(fields) => set k, n | k in fields && n in Refs(fields[k]) :: n
    case List(items) => set i, n | 0 <= i < |items| && n in Refs(items[i]) :: n
  }

  /** Every value refers, among the listed names, only to macros declared before it. */
  ghost predicate Earlier(macros: MacroList, names: set<string>)
  {
    forall i :: 0 <= i < |macros| ==> Refs(macros[i].value) * names <= Names(macros[..i])
  }

  lemma {:induction false} TextLeft(macros: MacroList, text: Text, names: set<string>)
    requires Declared(macros) && Earlier(macros, names) && TextRefs(text) * names <= Names(macros)
    ensures TextRefs(FullText(macros, text)) * names == {}
    decreases |macros|, 1, text
  {
    if text != [] {
      assert text == [text[0]] + text[1..];
      assert text[0].Ref? ==> text[0].name in TextRefs(text);
      TokenLeft(macros, text[0], names);
      TextLeft(macros, text[1..], names);
      assert TextRefs(FullText(macros, text)) == TextRefs(FullToken(macros, text[0])) + TextRefs(FullText(macros, text[1..]));
    }
  }

  lemma {:induction false} TokenLeft(macros: MacroList, t: Token, names: set<string>)
    requires Declared(macros) && Earlier(macros, names) && (t.Ref? && t.name in names ==> t.name in Names(macros))
    ensures TextRefs(FullToken(macros, t)) * names == {}
    decreases |macros|, 0
  {
    if t.Ref? && Index(macros, t.name) < |macros| {
      var i := Index(macros, t.name);
      assert Plain(macros[i].value) && Refs(macros[i].value) * names <= Names(macros[..i]);
      assert Earlier(macros[..i], names) by {
        assert forall k :: 0 <= k < i ==> macros[..i][..k] == macros[..k];
      }
      PlainLeft(macros[..i], macros[i].value, names);
    }
  }

  lemma {:induction false} PlainLeft(macros: MacroList, v: Value, names: set<string>)
    requires Declared(macros) && Earlier(macros, names) && Plain(v) && Refs(v) * names <= Names(macros)
    ensures TextRefs(Shown(Full(macros, v))) * names == {}
    decreases |macros|, 2
  {
    FullShown(macros, v);
    if v.Str? {
      TextLeft(macros, v.text, names);
    } else {
      FullChars(macros, Shown(v));
    }
  }

  lemma {:induction false} ValueLeft(macros: MacroList, v: Value, names: set<string>)
    requires Declared(macros) && Earlier(macros, names) && Refs(v) * names <= Names(macros)
    ensures Refs(Full(macros, v)) * names == {}
    decreases v
  {
    match v {
      case Str(text) =>
        PlainLeft(macros, v, names);
        StrRefs(macros, text);
      case Scalar(_, _) =>
      case Tree(fields) =>
        forall k | k in fields
          ensures Refs(Full(macros, fields[k])) * names == {}
        {
          assert Refs(fields[k]) <= Refs(v);
          ValueLeft(macros, fields[k], names);
        }
      case List(items) =>
        forall i | 0 <= i < |items|
          ensures Refs(Full(macros, items[i])) * names == {}
        {
          assert Refs(items[i]) <= Refs(v);
          ValueLeft(macros, items[i], names);
        }
    }
  }

  /** A string expands to a string or, through placeholders alone, to a scalar. */
  lemma {:induction false} StrRefs(macros: MacroList, text: Text)
    requires Declared(macros)
    ensures var f := Full(macros, Str(text)); Refs(f) <= TextRefs(Shown(f)) && (f.Str? || f.Scalar?)
    decreases |macros|
  {
    if |text| == 1 && text[0].Ref? && Index(macros, text[0].name) < |macros| {
      var i := Index(macros, text[0].name);
      assert Plain(macros[i].value);
      if macros[i].value.Str? {
        StrRefs(macros[..i], macros[i].value.text);
      }
    }
  }

  /** When every macro refers only to earlier ones, no listed placeholder is left
      anywhere in the value. */
  lemma {:induction false} NoListedPlaceholderLeft(macros: MacroList, v: Value)
    requires Declared(macros) && Sound(macros) && Earlier(macros, Names(macros))
    ensures Refs(Pass(macros, v)) * Names(macros) == {}
  {
    PassIsFullExpansion(macros, v);
    ValueLeft(macros, v, Names(macros));
  }

  /** Keys and shape stay: each field, and each item, is expanded where it is. */
  lemma {:induction false} PassKeepsShape(macros: MacroList, v: Value)
    ensures v.Tree? ==> Pass(macros, v) == Tree(map k | k in v.fields :: Pass(macros, v.fields[k]))
    ensures v.List? ==> Pass(macros, v) == List(seq(|v.items|, i requires 0 <= i < |v.items| => Pass(macros, v.items[i])))
  {
    if macros == [] {
      if v.Tree? {
        assert v.fields == map k | k in v.fields :: Pass(macros, v.fields[k]);
      }
      if v.List? {
        assert v.items == seq(|v.items|, i requires 0 <= i < |v.items| => Pass(macros, v.items[i]));
      }
    } else {
      var e := macros[|macros| - 1];
      PassKeepsShape(macros[..|macros| - 1], Substitute(v, e.name, e.value));
    }
  }

  // ---------------------------------------------------------- expansion, order-free

  /** One more than the place of the last listed macro that a string refers to. */
  function Level(macros: MacroList, text: Text): (n: nat)
    ensures n <= |macros|
  {
    if text == [] then 0
    else
      var here, rest := TokenLevel(macros, text[0]), Level(macros, text[1..]);
      if here > rest then here else rest
  }

  function TokenLevel(macros: MacroList, t: Token): (n: nat)
    ensures n <= |macros|
  {
    if t.Ref? && Index(macros, t.name) < |macros| then Index(macros, t.name) + 1 else 0
  }

  /** Every value refers, among the listed macros, only to earlier ones. */
  ghost predicate Backward(macros: MacroList)
  {
    forall i :: 0 <= i < |macros| ==> Level(macros, Shown(macros[i].value)) <= i
  }

  /** What a string stands for when every listed placeholder, wherever declared, stands
      for what its macro's value stands for. */
  ghost function Expand(macros: MacroList, text: Text): Value
    requires Backward(macros)
    decreases Level(macros, text), 3
  {
    if |text| == 1 && text[0].Ref? && Index(macros, text[0].name) < |macros|
    then ExpandMacro(macros, Index(macros, text[0].name))
    else Str(ExpandText(macros, text))
  }

  ghost function ExpandMacro(macros: MacroList, i: nat): Value
    requires Backward(macros) && i < |macros|
    decreases i, 4
  {
    if macros[i].value.Str? then Expand(macros, macros[i].value.text) else macros[i].value
  }

  ghost function ExpandText(macros: MacroList, text: Text): Text
    requires Backward(macros)
    decreases Level(macros, text), 2, |text|
  {
    if text == [] then [] else ExpandToken(macros, text[0]) + ExpandText(macros, text[1..])
  }

  ghost function ExpandToken(macros: MacroList, t: Token): Text
    requires Backward(macros)
    decreases TokenLevel(macros, t), 1
  {
    if t.Ref? && Index(macros, t.name) < |macros| then Shown(ExpandMacro(macros, Index(macros, t.name))) else [t]
  }

  /** The same for any value, keys and shapes kept. */
  ghost function Expansion(macros: MacroList, v: Value): Value
    requires Backward(macros)
  {
    match v
    case Str(text) => Expand(macros, text)
    case Scalar(_, _) => v
    case Tree(fields) => Tree(map k | k in fields :: Expansion(macros, fields[k]))
    case List(items) => List(seq(|items|, i requires 0 <= i < |items| => Expansion(macros, items[i])))
  }

  lemma {:induction false} IndexWithin(macros: MacroList, k: nat, name: string)
    requires k <= |macros| && (Index(macros, name) < k || Index(macros, name) == |macros|)
    ensures Index(macros[..k], name) == if Index(macros, name) < k then Index(macros, name) else k
  {
    var i, j := Index(macros, name), Index(macros[..k], name);
    if j < k {
      assert macros[j].name == name;
    }
    if i < k {
      assert macros[..k][i].name == name;
    }
  }

  /** A string that refers to the first `k` macros only expands over these as it does
      over all. */
  lemma {:induction false} TextWithin(macros: MacroList, k: nat, text: Text)
    requires Level(macros, text) <= k <= |macros|
    ensures FullText(macros[..k], text) == FullText(macros, text)
  {
    if text != [] {
      TextWithin(macros, k, text[1..]);
      if text[0].Ref? {
        var i := Index(macros, text[0].name);
        IndexWithin(macros, k, text[0].name);
        if i < k {
          assert macros[..k][..i] == macros[..i];
        }
      }
    }
  }

  lemma {:induction false} StrWithin(macros: MacroList, k: nat, text: Text)
    requires Level(macros, text) <= k <= |macros|
    ensures Full(macros[..k], Str(text)) == Full(macros, Str(text))
  {
    TextWithin(macros, k, text);
    if |text| == 1 && text[0].Ref? {
      var i := Index(macros, text[0].name);
      assert text[1..] == [];
      IndexWithin(macros, k, text[0].name);
      if i < k {
        assert macros[..k][..i] == macros[..i];
      }
    }
  }

  lemma {:induction false} MacroExpands(macros: MacroList, i: nat)
    requires Declared(macros) && Backward(macros) && i < |macros|
    ensures Full(macros[..i], macros[i].value) == ExpandMacro(macros, i)
    decreases i, 4
  {
    assert Plain(macros[i].value);
    if macros[i].value.Str? {
      StrWithin(macros, i, macros[i].value.text);
      StrExpands(macros, macros[i].value.text);
    }
  }

  lemma {:induction false} StrExpands(macros: MacroList, text: Text)
    requires Declared(macros) && Backward(macros)
    ensures Full(macros, Str(text)) == Expand(macros, text)
    decreases Level(macros, text), 3
  {
    if |text| == 1 && text[0].Ref? && Index(macros, text[0].name) < |macros| {
      MacroExpands(macros, Index(macros, text[0].name));
    } else {
      TextExpands(macros, text);
    }
  }

  lemma {:induction false} TextExpands(macros: MacroList, text: Text)
    requires Declared(macros) && Backward(macros)
    ensures FullText(macros, text) == ExpandText(macros, text)
    decreases Level(macros, text), 2, |text|
  {
    if text != [] {
      if text[0].Ref? && Index(macros, text[0].name) < |macros| {
        MacroExpands(macros, Index(macros, text[0].name));
      }
      TextExpands(macros, text[1..]);
    }
  }

  lemma {:induction false} ValueExpands(macros: MacroList, v: Value)
    requires Declared(macros) && Backward(macros)
    ensures Full(macros, v) == Expansion(macros, v)
    decreases v
  {
    match v {
      case Str(text) => StrExpands(macros, text);
      case Scalar(_, _) =>
      case Tree(fields) =>
        forall k | k in fields
          ensures Full(macros, fields[k]) == Expansion(macros, fields[k])
        {
          ValueExpands(macros, fields[k]);
        }
        assert Full(macros, v).fields == Expansion(macros, v).fields;
      case List(items) =>
        forall i | 0 <= i < |items|
          ensures Full(macros, items[i]) == Expansion(macros, items[i])
        {
          ValueExpands(macros, items[i]);
        }
        assert Full(macros, v).items == Expansion(macros, v).items;
    }
  }

  lemma {:induction false} LevelAtMost(macros: MacroList, text: Text, k: nat)
    requires k <= |macros| && TextRefs(text) * Names(macros) <= Names(macros[..k])
    ensures Level(macros, text) <= k
  {
    if text != [] {
      if text[0].Ref? && Index(macros, text[0].name) < |macros| {
        assert text[0].name in TextRefs(text) && text[0].name in Names(macros);
        assert text[0].name in Names(macros[..k]);
      }
      assert TextRefs(text[1..]) <= TextRefs(text);
      LevelAtMost(macros, text[1..], k);
    }
  }

  lemma {:induction false} EarlierIsBackward(macros: MacroList)
    requires Declared(macros) && Earlier(macros, Names(macros))
    ensures Backward(macros)
  {
    forall i | 0 <= i < |macros|
      ensures Level(macros, Shown(macros[i].value)) <= i
    {
      assert Plain(macros[i].value);
      if macros[i].value.Scalar? {
        assert TextRefs(Shown(macros[i].value)) == {};
      }
      LevelAtMost(macros, Shown(macros[i].value), i);
    }
  }

  /** When every macro refers only to earlier ones, the order of the list drops out:
      the pass from last to first computes what the placeholders stand for over the
      whole list. */
  lemma {:induction false} PassIsExpansion(macros: MacroList, v: Value)
    requires Declared(macros) && Sound(macros) && Earlier(macros, Names(macros))
    ensures Backward(macros) && Pass(macros, v) == Expansion(macros, v)
  {
    EarlierIsBackward(macros);
    PassIsFullExpansion(macros, v);
    ValueExpands(macros, v);
  }

  // ------------------------------------------------------- effective macro lists

  /** Replaces the first entry of the name in its place, or appends. */
  function Put(macros: MacroList, e: Entry): MacroList
  {
    var i := Index(macros, e.name);
    if i < |macros| then macros[i := e] else macros + [e]
  }

  function PutAll(macros: MacroList, entries: MacroList): MacroList
  {
    if entries == [] then macros else Put(PutAll(macros, entries[..|entries| - 1]), entries[|entries| - 1])
  }

  function Merged(modelId: Text, global: MacroList, model: MacroList): MacroList
  {
    PutAll([Entry("MODEL_ID", Str(modelId))] + global, model)
  }

  method MergeModelMacros(modelId: Text, global: MacroList, model: MacroList) returns (merged: MacroList)
    ensures merged == Merged(modelId, global, model)
  {
    merged := [Entry("MODEL_ID", Str(modelId))] + global;
    for n := 0 to |model|
      invariant merged == PutAll([Entry("MODEL_ID", Str(modelId))] + global, model[..n])
    {
      assert model[..n + 1][..n] == model[..n];
      var entry := model[n];
      var found := false;
      ghost var before := merged;
      var i := 0;
      while i < |merged| && !found
        invariant i <= |merged| && |merged| == |before|
        invariant !found ==> merged == before && forall k :: 0 <= k < i ==> before[k].name != entry.name
        invariant found ==> Index(before, entry.name) < |before| && merged == before[Index(before, entry.name) := entry]
        decreases |merged| - i, !found
      {
        if merged[i].name == entry.name {
          merged := merged[i := entry];
          found := true;
        } else {
          i := i + 1;
        }
      }
      if !found {
        merged := merged + [entry];
      }
    }
    assert model[..|model|] == model;
  }

  /** What a name stands for in a list. */
  function Lookup(macros: MacroList, name: string): Value
    requires Index(macros, name) < |macros|
  {
    macros[Index(macros, name)].value
  }

  ghost predicate Undeclared(macros: MacroList, name: string)
  {
    forall i :: 0 <= i < |macros| ==> macros[i].name != name
  }

  ghost predicate DistinctNames(macros: MacroList)
  {
    forall i, j :: 0 <= i < j < |macros| ==> macros[i].name != macros[j].name
  }

  lemma {:induction false} IndexIs(macros: MacroList, i: nat)
    requires DistinctNames(macros) && i < |macros|
    ensures Index(macros, macros[i].name) == i
  {
    var j := Index(macros, macros[i].name);
    assert j <= i && macros[j].name == macros[i].name;
  }

  lemma {:induction false} PutKeeps(macros: MacroList, e: Entry)
    requires DistinctNames(macros)
    ensures
      var out := Put(macros, e);
      && DistinctNames(out) && |macros| <= |out|
      && (forall i :: 0 <= i < |macros| ==> out[i] == if macros[i].name == e.name then e else macros[i])
      && (forall i :: |macros| <= i < |out| ==> out[i] == e)
      && (exists i :: 0 <= i < |out| && out[i] == e)
  {
    var i, out := Index(macros, e.name), Put(macros, e);
    assert out[i] == e;
    forall k | 0 <= k < |macros| && macros[k].name == e.name
      ensures k == i
    {
      IndexIs(macros, k);
    }
  }

  lemma {:induction false} PutAllKeeps(macros: MacroList, entries: MacroList)
    requires DistinctNames(macros) && DistinctNames(entries)
    ensures
      var out := PutAll(macros, entries);
      && DistinctNames(out) && |macros| <= |out|
      && (forall i :: 0 <= i < |macros| ==> out[i].name == macros[i].name)
      && (forall i :: 0 <= i < |macros| && Undeclared(entries, macros[i].name) ==> out[i] == macros[i])
      && (forall i :: |macros| <= i < |out| ==> out[i] in entries)
      && (forall k :: 0 <= k < |entries| ==> entries[k] in out)
  {
    if entries != [] {
      var init, e := entries[..|entries| - 1], entries[|entries| - 1];
      assert entries == init + [e];
      PutAllKeeps(macros, init);
      var before := PutAll(macros, init);
      PutKeeps(before, e);
      var out := Put(before, e);
      forall k | 0 <= k < |entries|
        ensures entries[k] in out
      {
        if k < |init| {
          assert init[k] in before;
          var at :| 0 <= at < |before| && before[at] == init[k];
          assert out[at] == init[k];
        }
      }
    }
  }

  /** The entries whose names are not in the list, in the order they are declared. */
  function Own(macros: MacroList, entries: MacroList): MacroList
  {
    if entries == [] then []
    else
      var last := entries[|entries| - 1];
      Own(macros, entries[..|entries| - 1]) + if exists i :: 0 <= i < |macros| && macros[i].name == last.name then [] else [last]
  }

  lemma {:induction false} PutAllAppends(macros: MacroList, entries: MacroList)
    requires DistinctNames(macros) && DistinctNames(entries)
    ensures |PutAll(macros, entries)| >= |macros| && PutAll(macros, entries)[|macros|..] == Own(macros, entries)
  {
    if entries != [] {
      var init, e := entries[..|entries| - 1], entries[|entries| - 1];
      PutAllAppends(macros, init);
      PutAllKeeps(macros, init);
      var before, n := PutAll(macros, init), |macros|;
      if i :| 0 <= i < n && macros[i].name == e.name {
        IndexIs(before, i);
        assert Put(before, e)[n..] == before[n..];
      } else {
        NewIsLast(macros, init, before, e);
        assert (before + [e])[n..] == before[n..] + [e];
      }
    }
  }

  /** A name that is neither in the list nor among the entries put so far goes last. */
  lemma {:induction false} NewIsLast(macros: MacroList, init: MacroList, before: MacroList, e: Entry)
    requires |macros| <= |before| && Undeclared(macros, e.name) && Undeclared(init, e.name)
    requires forall i :: 0 <= i < |macros| ==> before[i].name == macros[i].name
    requires forall i :: |macros| <= i < |before| ==> before[i] in init
    ensures Put(before, e) == before + [e]
  {
    NotListed(before, e.name);
  }

  lemma {:induction false} OwnBesideId(modelId: Text, global: MacroList, model: MacroList)
    requires Undeclared(model, "MODEL_ID")
    ensures Own([Entry("MODEL_ID", Str(modelId))] + global, model) == Own(global, model)
  {
    if model != [] {
      var start, last := [Entry("MODEL_ID", Str(modelId))] + global, model[|model| - 1];
      OwnBesideId(modelId, global, model[..|model| - 1]);
      if i :| 0 <= i < |global| && global[i].name == last.name {
        assert start[i + 1] == global[i];
      }
      if i :| 0 <= i < |start| && start[i].name == last.name {
        assert global[i - 1] == start[i];
      }
    }
  }

  /** The model's own entry of the name, if it has one. */
  function Overridden(model: MacroList, e: Entry): Entry
  {
    if Index(model, e.name) < |model| then model[Index(model, e.name)] else e
  }

  lemma {:induction false} StaysInPlace(start: MacroList, model: MacroList, i: nat)
    requires DistinctNames(start) && DistinctNames(model) && i < |start|
    ensures |PutAll(start, model)| >= |start| && PutAll(start, model)[i] == Overridden(model, start[i])
  {
    PutAllKeeps(start, model);
    var out, k := PutAll(start, model), Index(model, start[i].name);
    if k < |model| {
      assert model[k] in out;
      var at :| 0 <= at < |out| && out[at] == model[k];
      assert out[at].name == out[i].name;
    }
  }

  lemma {:induction false} StartDistinct(modelId: Text, global: MacroList)
    requires DistinctNames(global) && Undeclared(global, "MODEL_ID")
    ensures DistinctNames([Entry("MODEL_ID", Str(modelId))] + global)
  {
    var start := [Entry("MODEL_ID", Str(modelId))] + global;
    assert forall i :: 0 < i < |start| ==> start[i] == global[i - 1];
  }

  /** The effective list starts with the model's id, keeps every global macro in its
      place, its value replaced where the model declares the same name, and ends with
      the model's other macros; names stay distinct. */
  lemma {:induction false} MergedIsEffective(modelId: Text, global: MacroList, model: MacroList)
    requires DistinctNames(global) && DistinctNames(model)
    requires Undeclared(global, "MODEL_ID") && Undeclared(model, "MODEL_ID")
    ensures
      var out := Merged(modelId, global, model);
      && DistinctNames(out) && |out| > |global| && out[0] == Entry("MODEL_ID", Str(modelId))
      && (forall i :: 0 <= i < |global| ==> out[i + 1] == Overridden(model, global[i]))
      && (forall i :: |global| < i < |out| ==> out[i] in model && Undeclared(global, out[i].name))
      && (forall k :: 0 <= k < |model| ==> model[k] in out)
      && out[|global| + 1..] == Own(global, model)
  {
    var start := [Entry("MODEL_ID", Str(modelId))] + global;
    StartDistinct(modelId, global);
    PutAllKeeps(start, model);
    PutAllAppends(start, model);
    OwnBesideId(modelId, global, model);
    var out := Merged(modelId, global, model);
    StaysInPlace(start, model, 0);
    NotListed(model, "MODEL_ID");
    forall i | 0 <= i < |global|
      ensures out[i + 1] == Overridden(model, global[i])
    {
      StaysInPlace(start, model, i + 1);
      assert start[i + 1] == global[i];
    }
    forall i | |global| < i < |out|
      ensures Undeclared(global, out[i].name)
    {
      AppendedIsNew(start, global, out, i);
    }
  }

  lemma {:induction false} AppendedIsNew(start: MacroList, global: MacroList, out: MacroList, i: nat)
    requires |start| == |global| + 1 && start[1..] == global && DistinctNames(out) && |global| < i < |out|
    requires forall k :: 0 <= k < |start| ==> out[k].name == start[k].name
    ensures Undeclared(global, out[i].name)
  {
    forall k | 0 <= k < |global|
      ensures global[k].name != out[i].name
    {
      assert start[k + 1] == start[1..][k];
      assert out[k + 1].name == start[k + 1].name;
    }
  }

  // ------------------------------------------------------------ keys of parameters

  function KeyPass(macros: MacroList, key: Text): Text
  {
    if macros == [] then key
    else
      var e := macros[|macros| - 1];
      KeyPass(macros[..|macros| - 1], ReplaceAll(key, e.name, Shown(e.value)))
  }

  /** As text, the pass is full expansion whatever the macros are. */
  lemma {:induction false} KeyPassIsFullText(macros: MacroList, key: Text)
    requires Declared(macros)
    ensures KeyPass(macros, key) == FullText(macros, key)
  {
    if macros == [] {
      NoMacros(key);
    } else {
      var before, e := macros[..|macros| - 1], macros[|macros| - 1];
      assert macros == before + [e];
      NotListed(before, e.name);
      KeyPassIsFullText(before, ReplaceAll(key, e.name, Shown(e.value)));
      TextGrows(before, e, key);
    }
  }

  method ResolveKey(key: Text, macros: MacroList) returns (newKey: Text)
    ensures newKey == KeyPass(macros, key)
  {
    newKey := key;
    var i := |macros|;
    assert macros[..|macros|] == macros;
    while i > 0
      invariant 0 <= i <= |macros|
      invariant KeyPass(macros, key) == KeyPass(macros[..i], newKey)
    {
      i := i - 1;
      assert macros[..i + 1][..i] == macros[..i];
      newKey := ReplaceAll(newKey, macros[i].name, Shown(macros[i].value));
    }
  }

  /** The keys and what they expand to. */
  ghost function NewKeys(macros: MacroList, params: map<Text, Value>): map<Text, Text>
  {
    map k | k in params :: FullText(macros, k)
  }

  ghost predicate Clash(names: map<Text, Text>, a: Text, b: Text)
  {
    a in names && b in names && a != b && names[a] == names[b]
  }

  ghost predicate Collide(names: map<Text, Text>)
  {
    exists a, b :: Clash(names, a, b)
  }

  ghost predicate IsRenamed(names: map<Text, Text>, done: set<Text>, n: Text)
  {
    exists k :: k in done && k in names && names[k] == n
  }

  /** The keys in `done` are renamed, each to its own new key with its own value. */
  ghost predicate Renamed(params: map<Text, Value>, names: map<Text, Text>, done: set<Text>, resolved: map<Text, Value>)
  {
    && done <= params.Keys == names.Keys
    && (forall k :: k in done ==> names[k] in resolved && resolved[names[k]] == params[k])
    && (forall n :: n in resolved ==> IsRenamed(names, done, n))
    && Apart(names, done)
  }

  ghost predicate Apart(names: map<Text, Text>, done: set<Text>)
  {
    forall a, b :: a in done && b in done ==> !Clash(names, a, b)
  }

  lemma {:induction false} ApartGrows(names: map<Text, Text>, done: set<Text>, key: Text)
    requires Apart(names, done) && key in names && forall k :: k in done && k in names ==> names[k] != names[key]
    ensures Apart(names, done + {key})
  {
    forall a, b | a in done + {key} && b in done + {key}
      ensures !Clash(names, a, b)
    {
      assert a in done && b in done ==> !Clash(names, a, b);
    }
  }

  lemma {:induction false} RenameClashes(params: map<Text, Value>, names: map<Text, Text>,
      done: set<Text>, resolved: map<Text, Value>, key: Text)
    requires Renamed(params, names, done, resolved) && key in params && key !in done && names[key] in resolved
    ensures Collide(names)
  {
    assert IsRenamed(names, done, names[key]);
    var other :| other in done && other in names && names[other] == names[key];
    assert Clash(names, other, key);
  }

  lemma {:induction false} RenamedGrows(names: map<Text, Text>, done: set<Text>, key: Text, n: Text)
    requires key in names && (IsRenamed(names, done, n) || n == names[key])
    ensures IsRenamed(names, done + {key}, n)
  {
    if IsRenamed(names, done, n) {
      var k :| k in done && k in names && names[k] == n;
      assert k in done + {key};
    } else {
      assert key in done + {key};
    }
  }

  lemma {:induction false} RenameOne(params: map<Text, Value>, names: map<Text, Text>,
      done: set<Text>, resolved: map<Text, Value>, key: Text)
    requires Renamed(params, names, done, resolved) && key in params && key !in done && names[key] !in resolved
    ensures Renamed(params, names, done + {key}, resolved[names[key] := params[key]])
  {
    var next := resolved[names[key] := params[key]];
    forall n | n in next
      ensures IsRenamed(names, done + {key}, n)
    {
      RenamedGrows(names, done, key, n);
    }
    ApartGrows(names, done, key);
  }

  /** One key: its place in the new map, unless another key took it. */
  method RenameKey(params: map<Text, Value>, macros: MacroList, ghost done: set<Text>, resolved: map<Text, Value>, key: Text)
    returns (taken: bool, next: map<Text, Value>)
    requires Declared(macros) && key in params && key !in done && Renamed(params, NewKeys(macros, params), done, resolved)
    ensures taken ==> Collide(NewKeys(macros, params))
    ensures !taken ==> Renamed(params, NewKeys(macros, params), done + {key}, next)
  {
    ghost var names := NewKeys(macros, params);
    var newKey := ResolveKey(key, macros);
    KeyPassIsFullText(macros, key);
    assert names[key] == newKey;
    if newKey in resolved {
      RenameClashes(params, names, done, resolved, key);
      return true, resolved;
    }
    RenameOne(params, names, done, resolved, key);
    return false, resolved[newKey := params[key]];
  }

  /** Renames every key to its expansion, or fails exactly when two of them become the
      same, whatever order the map is walked in. */
  method SubstituteSetParamsByIdKeys(params: map<Text, Value>, macros: MacroList) returns (ok: bool, resolved: map<Text, Value>)
    requires Declared(macros)
    ensures ok <==> !Collide(NewKeys(macros, params))
    ensures ok ==> Renamed(params, NewKeys(macros, params), params.Keys, resolved)
  {
    resolved := map[];
    var left := params.Keys;
    ghost var done: set<Text> := {};
    while left != {}
      invariant left !! done && left + done == params.Keys
      invariant Renamed(params, NewKeys(macros, params), done, resolved)
      decreases |left|
    {
      var key :| key in left;
      left := left - {key};
      var taken, next := RenameKey(params, macros, done, resolved, key);
      if taken {
        return false, resolved;
      }
      resolved := next;
      done := done + {key};
    }
    assert done == params.Keys;
    return true, resolved;
  }
}
