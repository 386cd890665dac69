/**
 * The DNS record edit and create modals.
 *
 * Both build one form field per declared property of the record type, turn
 * the submitted `prop_*` inputs into a property bag (booleans, numbers and
 * text), check the submission in a fixed order (type, required properties,
 * zone, then the target the record type needs), and on success store the bag
 * as the record's whole property bag and point the record at its zone and,
 * for A/AAAA and CNAME records, at the address or record it resolves to.
 */
module DnsViews {
  import opened Values
  import opened GraphStore

  /** The resource record types the modals accept. */
  const RrTypes: seq<string> := ["A", "AAAA", "CNAME", "TXT", "MX", "NS", "SRV", "PTR", "CAA"]

  const PartOf: string := "PART_OF"
  const ResolvesTo: string := "RESOLVES_TO"

  /** Form inputs that carry a property are named `prop_<property>`. */
  const PropPrefix: string := "prop_"

  /** The submitted form, as `request.POST.items()` yields it: one pair per input name. */
  type Post = seq<(string, string)>

  datatype DnsError =
    | ConversionFailed(property: string, text: string)  // int() or float() refused the text
    | TypeNotText                                      // the `type` property is not a string
    | InvalidType(recordType: string)
    | RequiredMissing(names: seq<string>)
    | ZoneRequired
    | IpRequired
    | TargetRecordRequired

  // ---------------------------------------------------------------------
  // Coercion of one submitted text

  /** Text the modal treats as a number: digits once one '.' and one '-' are dropped. */
  predicate LooksNumeric(t: string) {
    AllDigits(RemoveFirst(RemoveFirst(t, '.'), '-'))
  }

  /**
   * Python's `float(s)` succeeds on plain decimal text: an optional sign,
   * digits with at most one '.'. Accepted text holds at least one digit.
   */
  function FloatAccepts(s: string): (r: bool)
    ensures r ==> exists c :: c in Strip(s) && IsDigit(c)
  {
    var t := Strip(s);
    if |t| > 0 && (t[0] == '-' || t[0] == '+') then
      var d := RemoveFirst(t[1..], '.');
      RemoveFirstChars(t[1..], '.');
      assert AllDigits(d) ==> d[0] in t[1..] && IsDigit(d[0]);
      assert t == [t[0]] + t[1..];
      AllDigits(d)
    else
      var d := RemoveFirst(t, '.');
      RemoveFirstChars(t, '.');
      assert AllDigits(d) ==> d[0] in t && IsDigit(d[0]);
      AllDigits(d)
  }

  /**
   * The value stored for one submitted text: a boolean for "true"/"false" in
   * any case, a float or an integer for numeric-looking text, the text itself
   * otherwise. None when `int()` or `float()` raises.
   */
  function Coerce(text: string): (r: Option<Value>)
    ensures r.Some? ==> r.value.Bool? || r.value.Int? || r.value.Float? || r.value.Str?
    ensures r.Some? && r.value.Str? ==> r.value.s == text
    ensures r.Some? && r.value.Float? ==> r.value.text == text && '.' in text
    ensures r.Some? && r.value.Int? ==> '.' !in text
  {
    var low := Lower(text);
    if low == "true" || low == "false" then Some(Bool(low == "true"))
    else if LooksNumeric(text) then
      if '.' in text then (if FloatAccepts(text) then Some(Float(text)) else None)
      else match PythonInt(text)
        case Some(n) => Some(Int(n))
        case None => None
    else Some(Str(text))
  }

  /** A lower-cased "true" or "false" starts with a letter, never a digit, '.' or '-'. */
  lemma BooleanWordStart(t: string)
    requires Lower(t) == "true" || Lower(t) == "false"
    ensures |t| > 0 && !IsDigit(t[0]) && t[0] != '.' && t[0] != '-'
  {
    assert Lower(t)[0] == LowerChar(t[0]);
  }

  /** Every character of numeric-looking text is a digit, '.' or '-'. */
  lemma NumericChars(t: string)
    requires LooksNumeric(t)
    ensures forall k :: 0 <= k < |t| ==> IsDigit(t[k]) || t[k] == '.' || t[k] == '-'
  {
    RemoveFirstChars(t, '.');
    RemoveFirstChars(RemoveFirst(t, '.'), '-');
    forall k | 0 <= k < |t|
      ensures IsDigit(t[k]) || t[k] == '.' || t[k] == '-'
    {
      var x := t[k];
      if x != '.' && x != '-' {
        assert x in RemoveFirst(RemoveFirst(t, '.'), '-');
        var u := RemoveFirst(RemoveFirst(t, '.'), '-');
        var m :| 0 <= m < |u| && u[m] == x;
      }
    }
  }

  /** Numeric-looking text has no blanks for `strip()` to remove. */
  lemma NumericUnstripped(t: string)
    requires LooksNumeric(t)
    ensures Strip(t) == t
  {
    NumericChars(t);
    StripNoBlanks(t);
  }

  /** Python's `int()` on '-'/digit text accepts it exactly when a '-' can only be its sign. */
  lemma IntAccepts(t: string)
    requires LooksNumeric(t) && '.' !in t
    ensures PythonInt(t).Some? <==> ('-' !in t || t[0] == '-')
  {
    NumericUnstripped(t);
    assert RemoveFirst(t, '.') == t;
    var u := RemoveFirst(t, '-');
    if t[0] == '-' {
      assert u == t[1..];
    } else if '-' in t {
      assert u == [t[0]] + RemoveFirst(t[1..], '-');
      assert IsDigit(u[0]);
      var k :| 0 <= k < |t| && t[k] == '-';
      assert !AllDigits(t);
    } else {
      assert u == t;
    }
  }

  /** Python's `float()` on '.'/'-'/digit text accepts it exactly when a '-' can only be its sign. */
  lemma FloatAcceptsIff(t: string)
    requires LooksNumeric(t) && '.' in t
    ensures FloatAccepts(t) <==> ('-' !in t || t[0] == '-')
  {
    NumericUnstripped(t);
    if t[0] == '-' {
      FloatSignLeads(t);
    } else if '-' in t {
      FloatMinusInside(t);
    } else {
      FloatUnsigned(t);
    }
  }

  lemma FloatSignLeads(t: string)
    requires LooksNumeric(t) && |t| > 0 && t[0] == '-' && Strip(t) == t
    ensures FloatAccepts(t)
  {
    var d := RemoveFirst(t, '.');
    assert d == ['-'] + RemoveFirst(t[1..], '.');
    assert RemoveFirst(d, '-') == RemoveFirst(t[1..], '.');
  }

  lemma FloatMinusInside(t: string)
    requires |t| > 0 && t[0] != '-' && '-' in t && Strip(t) == t
    requires LooksNumeric(t)
    ensures !FloatAccepts(t)
  {
    NumericChars(t);
    var d := RemoveFirst(t, '.');
    RemoveFirstChars(t, '.');
    assert '-' in d;
    var k :| 0 <= k < |d| && d[k] == '-';
    assert !AllDigits(d);
  }

  lemma FloatUnsigned(t: string)
    requires |t| > 0 && '-' !in t && Strip(t) == t
    requires LooksNumeric(t)
    ensures FloatAccepts(t)
  {
    var d := RemoveFirst(t, '.');
    RemoveFirstChars(t, '.');
    assert '-' !in d;
    assert RemoveFirst(d, '-') == d;
    NumericChars(t);
    assert t[0] != '+';
  }

  /** A submitted text is refused exactly when it looks numeric but has a '-' that is not its sign. */
  lemma CoerceRefusesIff(t: string)
    ensures Coerce(t).None? <==> (LooksNumeric(t) && '-' in t && t[0] != '-')
  {
    if Lower(t) == "true" || Lower(t) == "false" {
      BooleanWordStart(t);
      if LooksNumeric(t) {
        NumericChars(t);
      }
    } else if LooksNumeric(t) {
      if '.' in t {
        FloatAcceptsIff(t);
      } else {
        IntAccepts(t);
      }
    }
  }

  /** Text starting with a digit, '.' or '-' is no boolean word. */
  lemma NotBooleanWord(t: string)
    requires |t| > 0 && (IsDigit(t[0]) || t[0] == '.' || t[0] == '-')
    ensures Lower(t) != "true" && Lower(t) != "false"
  {
    if Lower(t) == "true" || Lower(t) == "false" {
      BooleanWordStart(t);
    }
  }

  /** Decimal digits read back as the natural number they spell. */
  lemma CoerceDigitsRoundTrip(d: string, m: nat)
    requires AllDigits(d) && DigitsValue(d) == m
    ensures Coerce(d) == Some(Int(m))
  {
    NotBooleanWord(d);
    assert '.' !in d && '-' !in d;
    assert RemoveFirst(RemoveFirst(d, '.'), '-') == d;
    assert LooksNumeric(d);
    StripNoBlanks(d);
    assert PythonInt(d) == Some(m as int);
  }

  /** A minus sign followed by decimal digits reads back as the negated number. */
  lemma CoerceNegativeRoundTrip(d: string, m: nat)
    requires AllDigits(d) && DigitsValue(d) == m
    ensures Coerce("-" + d) == Some(Int(-(m as int)))
  {
    var t := "-" + d;
    NegativeText(d);
    NotBooleanWord(t);
    PlainDigits(d);
    PythonIntNegative(t);
  }

  /** '-' and digits: numeric-looking text without '.' or blanks. */
  lemma NegativeText(d: string)
    requires AllDigits(d)
    ensures var t := "-" + d;
            t[0] == '-' && t[1..] == d && '.' !in t && LooksNumeric(t) && Strip(t) == t
  {
    var t := "-" + d;
    assert t[1..] == d;
    assert '.' !in d;
    assert RemoveFirst(t, '.') == t;
    assert RemoveFirst(t, '-') == d;
    forall k | 0 <= k < |t|
      ensures !IsSpace(t[k])
    {
      if k > 0 {
        assert t[k] == d[k - 1];
      }
    }
    StripNoBlanks(t);
  }

  /** An integer written out in decimal is read back as that integer. */
  lemma CoerceIntRoundTrip(n: int)
    ensures Coerce(IntText(n)) == Some(Int(n))
  {
    var m: nat := if n < 0 then -n else n;
    DecimalTextRoundTrip(m);
    if n < 0 {
      CoerceNegativeRoundTrip(DecimalText(m), m);
    } else {
      CoerceDigitsRoundTrip(DecimalText(m), m);
    }
  }

  /** Text with any character other than a digit, '.' or '-' is kept as text, unless it is a boolean word. */
  lemma CoerceKeepsText(t: string, k: int)
    requires 0 <= k < |t| && !IsDigit(t[k]) && t[k] != '.' && t[k] != '-'
    requires Lower(t) != "true" && Lower(t) != "false"
    ensures Coerce(t) == Some(Str(t))
  {
    if LooksNumeric(t) {
      NumericChars(t);
    }
  }

  /** Booleans come back from the words "true" and "false" in any letter case, and only from them. */
  lemma CoerceBoolIff(t: string, b: bool)
    ensures Coerce(t) == Some(Bool(b)) <==> Lower(t) == (if b then "true" else "false")
  {
  }

  // ---------------------------------------------------------------------
  // Collecting the submitted properties

  predicate IsPropInput(name: string) {
    |name| >= |PropPrefix| && name[..|PropPrefix|] == PropPrefix
  }

  /** The property an input named `prop_<property>` carries. */
  function PropertyOf(name: string): string
    requires IsPropInput(name)
  {
    name[|PropPrefix|..]
  }

  /** The input names of a submitted form are distinct, as a query dictionary's keys are. */
  predicate DistinctInputs(post: Post) {
    forall i, j :: 0 <= i < j < |post| ==> post[i].0 != post[j].0
  }

  /**
   * `new_props_from_fields`: every `prop_*` input, in submission order, stored
   * under its property name with its coerced value; the first input whose text
   * `int()` or `float()` refuses ends the collection with an error.
   */
  function CoercePost(post: Post): (r: Result<PropertyBag, DnsError>)
    ensures r.Err? ==> r.error.ConversionFailed?
  {
    if post == [] then Ok(map[])
    else
      match CoercePost(post[..|post| - 1])
      case Err(e) => Err(e)
      case Ok(bag) =>
        var (name, text) := post[|post| - 1];
        if !IsPropInput(name) then Ok(bag)
        else match Coerce(text)
          case None => Err(ConversionFailed(PropertyOf(name), text))
          case Some(v) => Ok(bag[PropertyOf(name) := v])
  }

  /** Once a prefix of the submission fails, the whole submission fails the same way. */
  lemma {:induction false} CoercePostErrorSticks(post: Post, i: nat)
    requires i <= |post| && CoercePost(post[..i]).Err?
    ensures CoercePost(post) == CoercePost(post[..i])
  {
    if i < |post| {
      var init := post[..|post| - 1];
      assert init[..i] == post[..i];
      CoercePostErrorSticks(init, i);
    } else {
      assert post[..i] == post;
    }
  }

  /** The loop of both modals over `request.POST.items()`. */
  method CollectProps(post: Post) returns (r: Result<PropertyBag, DnsError>)
    ensures r == CoercePost(post)
  {
    var bag: PropertyBag := map[];
    for i := 0 to |post|
      invariant CoercePost(post[..i]) == Ok(bag)
    {
      assert post[..i + 1][..i] == post[..i];
      var (name, text) := post[i];
      if IsPropInput(name) {
        var v := Coerce(text);
        if v.None? {
          r := Err(ConversionFailed(PropertyOf(name), text));
          CoercePostErrorSticks(post, i + 1);
          return;
        }
        bag := bag[PropertyOf(name) := v.value];
      }
    }
    assert post[..|post|] == post;
    r := Ok(bag);
  }

  /**
   * The collection succeeds exactly when every `prop_*` text is accepted, and
   * then holds exactly the submitted properties; otherwise it reports the
   * first refused input.
   */
  lemma CoercePostOutcome(post: Post)
    ensures CoercePost(post).Ok? <==>
              forall i :: 0 <= i < |post| && IsPropInput(post[i].0) ==> Coerce(post[i].1).Some?
    ensures CoercePost(post).Ok? ==>
              forall p :: p in CoercePost(post).value <==>
                exists i :: 0 <= i < |post| && IsPropInput(post[i].0) && PropertyOf(post[i].0) == p
    ensures CoercePost(post).Err? ==>
              exists i :: 0 <= i < |post| && IsPropInput(post[i].0) && Coerce(post[i].1).None?
                && CoercePost(post).error == ConversionFailed(PropertyOf(post[i].0), post[i].1)
                && forall j :: 0 <= j < i && IsPropInput(post[j].0) ==> Coerce(post[j].1).Some?
  {
    if CoercePost(post).Ok? {
      CoercePostAccepted(post);
      CoercePostKeys(post);
    } else {
      CoercePostFirstError(post);
    }
  }

  lemma {:induction false} CoercePostAccepted(post: Post)
    requires CoercePost(post).Ok?
    ensures forall i :: 0 <= i < |post| && IsPropInput(post[i].0) ==> Coerce(post[i].1).Some?
  {
    if post != [] {
      var init := post[..|post| - 1];
      assert CoercePost(init).Ok?;
      CoercePostAccepted(init);
      forall i | 0 <= i < |post| - 1
        ensures post[i] == init[i]
      {
      }
    }
  }

  lemma {:induction false} CoercePostFirstError(post: Post)
    requires CoercePost(post).Err?
    ensures exists i :: 0 <= i < |post| && IsPropInput(post[i].0) && Coerce(post[i].1).None?
              && CoercePost(post).error == ConversionFailed(PropertyOf(post[i].0), post[i].1)
              && forall j :: 0 <= j < i && IsPropInput(post[j].0) ==> Coerce(post[j].1).Some?
  {
    var init, last := post[..|post| - 1], post[|post| - 1];
    if CoercePost(init).Err? {
      CoercePostFirstError(init);
      var i :| 0 <= i < |init| && IsPropInput(init[i].0) && Coerce(init[i].1).None?
               && CoercePost(init).error == ConversionFailed(PropertyOf(init[i].0), init[i].1)
               && forall j :: 0 <= j < i && IsPropInput(init[j].0) ==> Coerce(init[j].1).Some?;
      assert forall j :: 0 <= j <= i ==> init[j] == post[j];
    } else {
      CoercePostAccepted(init);
      assert forall j :: 0 <= j < |init| ==> init[j] == post[j];
      assert IsPropInput(post[|post| - 1].0) && Coerce(post[|post| - 1].1).None?;
    }
  }

  lemma {:induction false} CoercePostKeys(post: Post)
    requires CoercePost(post).Ok?
    ensures forall p :: p in CoercePost(post).value <==>
              exists i :: 0 <= i < |post| && IsPropInput(post[i].0) && PropertyOf(post[i].0) == p
  {
    if post != [] {
      var init, last := post[..|post| - 1], post[|post| - 1];
      assert CoercePost(init).Ok?;
      CoercePostKeys(init);
      assert forall i :: 0 <= i < |init| ==> init[i] == post[i];
      if IsPropInput(last.0) {
        assert IsPropInput(post[|post| - 1].0);
      }
    }
  }

  /** Each submitted property holds the coerced text of its own input. */
  lemma {:induction false} CoercePostValues(post: Post)
    requires DistinctInputs(post) && CoercePost(post).Ok?
    ensures forall i :: 0 <= i < |post| && IsPropInput(post[i].0) ==>
              PropertyOf(post[i].0) in CoercePost(post).value
              && Some(CoercePost(post).value[PropertyOf(post[i].0)]) == Coerce(post[i].1)
  {
    if post != [] {
      var init := post[..|post| - 1];
      var last := post[|post| - 1];
      assert CoercePost(init).Ok?;
      assert forall i :: 0 <= i < |init| ==> init[i] == post[i];
      CoercePostValues(init);
      var bag := CoercePost(init).value;
      if IsPropInput(last.0) {
        assert CoercePost(post) == Ok(bag[PropertyOf(last.0) := Coerce(last.1).value]);
        forall i | 0 <= i < |init| && IsPropInput(init[i].0)
          ensures PropertyOf(init[i].0) != PropertyOf(last.0)
        {
          var a, b := init[i].0, last.0;
          assert a == a[..|PropPrefix|] + PropertyOf(a);
          assert b == b[..|PropPrefix|] + PropertyOf(b);
        }
      } else {
        assert CoercePost(post) == Ok(bag);
      }
    }
  }

  // ---------------------------------------------------------------------
  // Form fields

  /**
   * An entry of the type's `properties` metadata: a bare name, or a
   * declaration with a name and choices. A declaration without a name has the
   * name "", and one without choices has the choices Null.
   */
  datatype PropDef = Plain(name: string) | Declared(name: string, choices: Value)

  /** The type registry's metadata for the record label. */
  datatype TypeMetadata = TypeMetadata(required: seq<string>, properties: seq<PropDef>)

  datatype FieldKind = TextInput | SelectInput

  datatype FormField = FormField(
    key: string,
    value: Value,
    kind: FieldKind,
    inputName: string,
    required: bool,
    choices: Option<Value>)

  function ChoicesOf(def: PropDef): Value {
    if def.Declared? then def.choices else Null
  }

  /** The field for one named property: a select when it has truthy choices, text otherwise. */
  function FieldFor(def: PropDef, required: seq<string>, current: PropertyBag): FormField {
    var choices := ChoicesOf(def);
    FormField(
      def.name,
      Get(current, def.name, Str("")),
      if Truthy(choices) then SelectInput else TextInput,
      PropPrefix + def.name,
      def.name in required,
      if Truthy(choices) then Some(choices) else None)
  }

  /**
   * `form_fields`: one field per property declaration with a non-empty name,
   * in declaration order. The create modal passes an empty bag as `current`,
   * so every value is "".
   */
  function FormFields(defs: seq<PropDef>, required: seq<string>, current: PropertyBag): seq<FormField> {
    if defs == [] then []
    else
      var def := defs[|defs| - 1];
      FormFields(defs[..|defs| - 1], required, current)
        + (if def.name == "" then [] else [FieldFor(def, required, current)])
  }

  method BuildFormFields(meta: TypeMetadata, current: PropertyBag) returns (fields: seq<FormField>)
    ensures fields == FormFields(meta.properties, meta.required, current)
  {
    fields := [];
    for i := 0 to |meta.properties|
      invariant fields == FormFields(meta.properties[..i], meta.required, current)
    {
      assert meta.properties[..i + 1][..i] == meta.properties[..i];
      var def := meta.properties[i];
      if def.name != "" {
        fields := fields + [FieldFor(def, meta.required, current)];
      }
    }
    assert meta.properties[..|meta.properties|] == meta.properties;
  }

  /** What a field for property `f.key` shows, given the required names and the current bag. */
  predicate DescribesProperty(f: FormField, required: seq<string>, current: PropertyBag) {
    f.key != "" && f.inputName == PropPrefix + f.key
    && (f.required <==> f.key in required)
    && (f.kind == SelectInput <==> f.choices.Some?)
    && f.value == Get(current, f.key, Str(""))
  }

  /**
   * Each field has a declared, non-empty property name as its key; its input
   * is `prop_<key>`; it is required exactly when the key is listed as
   * required; it is a select exactly when it carries choices; its value is the
   * current value or "".
   */
  lemma {:induction false} FormFieldsDescribeDeclarations(defs: seq<PropDef>, required: seq<string>, current: PropertyBag)
    ensures forall f :: f in FormFields(defs, required, current) ==>
              DescribesProperty(f, required, current)
              && exists d :: d in defs && d.name == f.key && f == FieldFor(d, required, current)
  {
    if defs != [] {
      var init, def := defs[..|defs| - 1], defs[|defs| - 1];
      FormFieldsDescribeDeclarations(init, required, current);
      var tail := if def.name == "" then [] else [FieldFor(def, required, current)];
      assert FormFields(defs, required, current) == FormFields(init, required, current) + tail;
      forall f | f in FormFields(defs, required, current)
        ensures DescribesProperty(f, required, current)
                && exists d :: d in defs && d.name == f.key && f == FieldFor(d, required, current)
      {
        if f in FormFields(init, required, current) {
          var d :| d in init && d.name == f.key && f == FieldFor(d, required, current);
          assert d in defs;
        } else {
          assert f in tail;
          assert def in defs;
        }
      }
    }
  }

  /** Every declaration with a non-empty name has a field. */
  lemma {:induction false} FormFieldsCoverDeclarations(defs: seq<PropDef>, required: seq<string>, current: PropertyBag)
    ensures forall d :: d in defs && d.name != "" ==>
              exists f :: f in FormFields(defs, required, current) && f.key == d.name
  {
    if defs != [] {
      var init, def := defs[..|defs| - 1], defs[|defs| - 1];
      FormFieldsCoverDeclarations(init, required, current);
      var tail := if def.name == "" then [] else [FieldFor(def, required, current)];
      assert FormFields(defs, required, current) == FormFields(init, required, current) + tail;
      forall d | d in defs && d.name != ""
        ensures exists f :: f in FormFields(defs, required, current) && f.key == d.name
      {
        if d == def {
          assert tail[0] in FormFields(defs, required, current);
        } else {
          assert defs == init + [def];
          assert d in init;
          var f :| f in FormFields(init, required, current) && f.key == d.name;
          assert f in FormFields(defs, required, current);
        }
      }
    }
  }

  /** The input a field is submitted under names the field's own property. */
  lemma FieldInputRoundTrip(f: FormField)
    requires f.inputName == PropPrefix + f.key
    ensures IsPropInput(f.inputName) && PropertyOf(f.inputName) == f.key
  {
  }

  /** The submission of every field of a form, the `i`-th field with the `i`-th text. */
  function FormPost(fields: seq<FormField>, texts: seq<string>): (post: Post)
    requires |texts| == |fields|
    ensures |post| == |fields|
    ensures forall i :: 0 <= i < |fields| ==> post[i] == (fields[i].inputName, texts[i])
  {
    seq(|fields|, i requires 0 <= i < |fields| => (fields[i].inputName, texts[i]))
  }

  /**
   * Submitting a text for every field of the form gives, when every text is
   * accepted, a property bag whose properties are exactly the fields' keys.
   */
  lemma SubmittedFormKeys(defs: seq<PropDef>, required: seq<string>, current: PropertyBag, texts: seq<string>)
    requires |texts| == |FormFields(defs, required, current)|
    ensures var fields := FormFields(defs, required, current);
            var post := FormPost(fields, texts);
            CoercePost(post).Ok? ==>
              forall p :: p in CoercePost(post).value <==> exists f :: f in fields && f.key == p
  {
    var fields := FormFields(defs, required, current);
    var post := FormPost(fields, texts);
    FormFieldsDescribeDeclarations(defs, required, current);
    CoercePostOutcome(post);
    if CoercePost(post).Ok? {
      var bag := CoercePost(post).value;
      forall p | p in bag
        ensures exists f :: f in fields && f.key == p
      {
        var i :| 0 <= i < |post| && IsPropInput(post[i].0) && PropertyOf(post[i].0) == p;
        assert fields[i] in fields;
      }
      forall f | f in fields
        ensures f.key in bag
      {
        var i :| 0 <= i < |fields| && fields[i] == f;
        FieldInputRoundTrip(f);
        assert post[i].0 == f.inputName;
      }
    }
  }

  /** `name_field`: the first field whose key is "name", if any. */
  function NameField(fields: seq<FormField>): (r: Option<FormField>)
    ensures r.None? <==> forall i :: 0 <= i < |fields| ==> fields[i].key != "name"
    ensures r.Some? ==> exists i :: (0 <= i < |fields| && fields[i] == r.value && r.value.key == "name"
                                     && forall j :: 0 <= j < i ==> fields[j].key != "name")
  {
    if fields == [] then None
    else if fields[0].key == "name" then Some(fields[0])
    else
      NameField(fields[1..])
  }

  /** `other_fields`: the fields other than "name" and "type", in form order. */
  function OtherFields(fields: seq<FormField>): (r: seq<FormField>)
    ensures forall f :: f in r <==> f in fields && f.key != "name" && f.key != "type"
  {
    if fields == [] then []
    else
      (if fields[0].key != "name" && fields[0].key != "type" then [fields[0]] else [])
        + OtherFields(fields[1..])
  }

  // ---------------------------------------------------------------------
  // The edit form

  /** `(out_rels.get(rel) or [None])[0]`: the first target of that relationship, if any. */
  function FirstTarget(ts: seq<Target>): Option<Target> {
    if ts == [] then None else Some(ts[0])
  }

  /** The current zone or resolution target shown is one of the record's edges, and one is shown whenever such an edge exists. */
  lemma {:induction false} FirstTargetIsAnEdge(es: seq<Edge>, src: NodeId, rel: string)
    ensures FirstTarget(Targets(es, src, rel)).Some? ==>
              var t := FirstTarget(Targets(es, src, rel)).value;
              Edge(src, rel, t.targetId, t.targetLabel) in es
    ensures FirstTarget(Targets(es, src, rel)).None? ==> forall e :: e in es ==> !Outgoing(e, src, rel)
  {
    if es != [] {
      FirstTargetIsAnEdge(es[1..], src, rel);
      if !Outgoing(es[0], src, rel) {
        assert es == [es[0]] + es[1..];
      }
    }
  }

  /**
   * `(current_props.get('type') or '').upper()`: None when the stored type is a
   * truthy value that is not text, on which `upper()` raises outside the
   * view's error handling.
   */
  function CurrentType(props: PropertyBag): (r: Option<string>)
    ensures r.None? <==> Truthy(Get(props, "type", Null)) && !Get(props, "type", Null).Str?
    ensures r.Some? ==> forall k :: 0 <= k < |r.value| ==> !('a' <= r.value[k] <= 'z')
  {
    var t := Or(Get(props, "type", Null), Str(""));
    if t.Str? then Some(Upper(t.s)) else None
  }

  datatype EditForm = EditForm(
    formFields: seq<FormField>,
    nameField: Option<FormField>,
    otherFields: seq<FormField>,
    currentZone: Option<Target>,
    currentResolve: Option<Target>,
    currentType: string)

  // ---------------------------------------------------------------------
  // Validation

  /** `request.POST.get(name, '')`. */
  function PostGet(post: Post, name: string): string {
    if post == [] then ""
    else if post[|post| - 1].0 == name then post[|post| - 1].1
    else PostGet(post[..|post| - 1], name)
  }

  /** `new_props_from_fields.get('type', '').strip().upper()`: None when the type is not text. */
  function RecordTypeOf(props: PropertyBag): (r: Option<string>)
    ensures r.None? <==> "type" in props && !props["type"].Str?
    ensures r.Some? ==> forall k :: 0 <= k < |r.value| ==> !('a' <= r.value[k] <= 'z')
  {
    var t := Get(props, "type", Str(""));
    if t.Str? then Some(Upper(Strip(t.s))) else None
  }

  /** `missing`: the required properties that are absent or "", in declaration order. */
  function MissingRequired(required: seq<string>, props: PropertyBag): seq<string> {
    if required == [] then []
    else
      var init := required[..|required| - 1];
      var p := required[|required| - 1];
      MissingRequired(init, props) + (if p !in props || props[p] == Str("") then [p] else [])
  }

  /** A name is reported missing exactly when it is required and absent or ""; none is when all are present. */
  lemma {:induction false} MissingRequiredMembers(required: seq<string>, props: PropertyBag)
    ensures forall p :: p in MissingRequired(required, props) <==> p in required && (p !in props || props[p] == Str(""))
    ensures MissingRequired(required, props) == [] <==> forall p :: p in required ==> p in props && props[p] != Str("")
  {
    if required != [] {
      var init, p := required[..|required| - 1], required[|required| - 1];
      MissingRequiredMembers(init, props);
      assert required == init + [p];
    }
  }

  /** The missing names of a concatenation are those of each part, in turn: declaration order is kept. */
  lemma {:induction false} MissingRequiredAppend(a: seq<string>, b: seq<string>, props: PropertyBag)
    ensures MissingRequired(a + b, props) == MissingRequired(a, props) + MissingRequired(b, props)
  {
    if b == [] {
      assert a + b == a;
    } else {
      var init, p := b[..|b| - 1], b[|b| - 1];
      assert b == init + [p];
      assert a + b == (a + init) + [p];
      MissingRequiredAppend(a, init, props);
      MissingRequiredSnoc(a + init, p, props);
      MissingRequiredSnoc(init, p, props);
    }
  }

  lemma MissingRequiredSnoc(init: seq<string>, p: string, props: PropertyBag)
    ensures MissingRequired(init + [p], props)
         == MissingRequired(init, props) + (if p !in props || props[p] == Str("") then [p] else [])
  {
    assert (init + [p])[..|init|] == init;
  }

  /** A submission that passed every check. */
  datatype Submission = Submission(
    props: PropertyBag,
    recordType: string,
    zoneId: string,
    ipId: string,
    recordId: string)

  predicate IsAddressType(t: string) {
    t == "A" || t == "AAAA"
  }

  /** The checks after collection, in the order the modals make them. */
  function CheckSubmission(props: PropertyBag, post: Post, required: seq<string>): (r: Result<Submission, DnsError>)
    ensures r == Err(TypeNotText) <==> RecordTypeOf(props).None?
    ensures r.Err? ==> !r.error.ConversionFailed?
    ensures r.Err? && r.error.RequiredMissing? ==> r.error.names == MissingRequired(required, props) && r.error.names != []
    ensures r.Ok? ==> r.value.props == props && RecordTypeOf(props) == Some(r.value.recordType)
    ensures r.Ok? ==> forall p :: p in required ==> p in props && props[p] != Str("")
  {
    MissingRequiredMembers(required, props);
    match RecordTypeOf(props)
    case None => Err(TypeNotText)
    case Some(recordType) =>
      if recordType != "" && recordType !in RrTypes then Err(InvalidType(recordType))
      else if MissingRequired(required, props) != [] then Err(RequiredMissing(MissingRequired(required, props)))
      else
        var zoneId := Strip(PostGet(post, "zone_id"));
        var ipId := Strip(PostGet(post, "ip_id"));
        var recordId := Strip(PostGet(post, "record_id"));
        if zoneId == "" then Err(ZoneRequired)
        else if IsAddressType(recordType) && ipId == "" then Err(IpRequired)
        else if recordType == "CNAME" && recordId == "" then Err(TargetRecordRequired)
        else Ok(Submission(props, recordType, zoneId, ipId, recordId))
  }

  /**
   * The whole POST validation. An accepted submission has a known or empty
   * record type, every required property present and not "", a zone, an
   * address for A/AAAA and a target record for CNAME; its bag is exactly the
   * collected one.
   */
  function Validate(post: Post, required: seq<string>): (r: Result<Submission, DnsError>)
    ensures r.Ok? ==>
              CoercePost(post) == Ok(r.value.props)
              && RecordTypeOf(r.value.props) == Some(r.value.recordType)
              && (r.value.recordType == "" || r.value.recordType in RrTypes)
              && (forall p :: p in required ==> p in r.value.props && r.value.props[p] != Str(""))
              && r.value.zoneId != "" && r.value.zoneId == Strip(PostGet(post, "zone_id"))
              && r.value.ipId == Strip(PostGet(post, "ip_id"))
              && r.value.recordId == Strip(PostGet(post, "record_id"))
              && (IsAddressType(r.value.recordType) ==> r.value.ipId != "")
              && (r.value.recordType == "CNAME" ==> r.value.recordId != "")
  {
    match CoercePost(post)
    case Err(e) => Err(e)
    case Ok(props) => CheckSubmission(props, post, required)
  }

  /**
   * The checks run in a fixed order: each error is reported only when every
   * earlier check passed.
   */
  lemma ValidationOrder(post: Post, required: seq<string>)
    ensures var r := Validate(post, required);
            r.Err? && !r.error.ConversionFailed? ==>
              CoercePost(post).Ok?
              && var props := CoercePost(post).value;
              (r.error != TypeNotText ==> RecordTypeOf(props).Some?)
              && (!r.error.InvalidType? && r.error != TypeNotText ==>
                    RecordTypeOf(props).value == "" || RecordTypeOf(props).value in RrTypes)
              && (r.error == ZoneRequired || r.error == IpRequired || r.error == TargetRecordRequired ==>
                    MissingRequired(required, props) == [])
              && (r.error == IpRequired || r.error == TargetRecordRequired ==>
                    Strip(PostGet(post, "zone_id")) != "")
              && (r.error.RequiredMissing? ==>
                    r.error.names == MissingRequired(required, props) && r.error.names != [])
  {
  }

  /** A submission passing every check is accepted. */
  lemma ValidationComplete(post: Post, required: seq<string>)
    requires CoercePost(post).Ok?
    requires var props := CoercePost(post).value;
             RecordTypeOf(props).Some?
             && (RecordTypeOf(props).value == "" || RecordTypeOf(props).value in RrTypes)
             && (forall p :: p in required ==> p in props && props[p] != Str(""))
             && Strip(PostGet(post, "zone_id")) != ""
             && (IsAddressType(RecordTypeOf(props).value) ==> Strip(PostGet(post, "ip_id")) != "")
             && (RecordTypeOf(props).value == "CNAME" ==> Strip(PostGet(post, "record_id")) != "")
    ensures Validate(post, required).Ok?
  {
    MissingRequiredMembers(required, CoercePost(post).value);
  }

  /** A record saved by either modal can be opened in the edit modal again: its stored type is text. */
  lemma SavedRecordReopens(post: Post, required: seq<string>)
    requires Validate(post, required).Ok?
    ensures CurrentType(Validate(post, required).value.props).Some?
  {
  }

  // ---------------------------------------------------------------------
  // Relationships

  /** The edges a saved record gets: its zone, then the target its type needs, if given. */
  function NewEdges(id: NodeId, s: Submission): seq<Edge> {
    [Edge(id, PartOf, s.zoneId, "DNS_Zone")]
      + if IsAddressType(s.recordType) && s.ipId != "" then [Edge(id, ResolvesTo, s.ipId, "IP_Address")]
        else if s.recordType == "CNAME" && s.recordId != "" then [Edge(id, ResolvesTo, s.recordId, "DNS_Record")]
        else []
  }

  /** The edge set after an edit: the record's old zone and resolution edges replaced by the new ones. */
  function Rewired(es: seq<Edge>, id: NodeId, s: Submission): seq<Edge> {
    WithoutRel(WithoutRel(es, id, PartOf), id, ResolvesTo) + NewEdges(id, s)
  }

  /**
   * Disconnecting every target listed for PART_OF and then every target
   * listed for RESOLVES_TO removes exactly the record's edges of those two
   * types.
   */
  lemma ResetRemovesBoth(es: seq<Edge>, id: NodeId)
    ensures WithoutTargets(
              WithoutTargets(es, id, PartOf, TargetIds(Targets(es, id, PartOf))),
              id, ResolvesTo, TargetIds(Targets(es, id, ResolvesTo)))
         == WithoutRel(WithoutRel(es, id, PartOf), id, ResolvesTo)
  {
    TargetsCover(es, id, PartOf);
    WithoutAllTargets(es, id, PartOf, TargetIds(Targets(es, id, PartOf)));
    var stripped := WithoutRel(es, id, PartOf);
    WithoutRelMembers(es, id, PartOf);
    TargetsCover(es, id, ResolvesTo);
    WithoutAllTargets(stripped, id, ResolvesTo, TargetIds(Targets(es, id, ResolvesTo)));
  }

  /** The new edges are one PART_OF edge to the zone, followed by the record's new RESOLVES_TO edges. */
  lemma NewEdgesByRel(id: NodeId, s: Submission)
    ensures EdgesOf(NewEdges(id, s), id, PartOf) == [Edge(id, PartOf, s.zoneId, "DNS_Zone")]
    ensures EdgesOf(NewEdges(id, s), id, ResolvesTo) == NewEdges(id, s)[1..]
  {
    var zone := Edge(id, PartOf, s.zoneId, "DNS_Zone");
    var tail := NewEdges(id, s)[1..];
    assert NewEdges(id, s) == [zone] + tail;
    EdgesOfAppend([zone], tail, id, PartOf);
    EdgesOfAppend([zone], tail, id, ResolvesTo);
    assert EdgesOf([zone], id, PartOf) == [zone] && EdgesOf([zone], id, ResolvesTo) == [];
    if tail != [] {
      assert tail == [tail[0]] && EdgesOf(tail, id, PartOf) == [];
    }
  }

  /**
   * After the rewiring the record has exactly one PART_OF edge, to the chosen
   * zone; a RESOLVES_TO edge to the address for A/AAAA, to the target record
   * for CNAME, none otherwise; and every edge that is not one of the record's
   * PART_OF or RESOLVES_TO edges is kept.
   */
  lemma RewiredEdges(es: seq<Edge>, id: NodeId, post: Post, required: seq<string>)
    requires Validate(post, required).Ok?
    ensures var s := Validate(post, required).value;
            var r := Rewired(es, id, s);
            EdgesOf(r, id, PartOf) == [Edge(id, PartOf, s.zoneId, "DNS_Zone")]
            && EdgesOf(r, id, ResolvesTo)
               == (if IsAddressType(s.recordType) then [Edge(id, ResolvesTo, s.ipId, "IP_Address")]
                   else if s.recordType == "CNAME" then [Edge(id, ResolvesTo, s.recordId, "DNS_Record")]
                   else [])
            && forall e :: !Outgoing(e, id, PartOf) && !Outgoing(e, id, ResolvesTo) ==> (e in r <==> e in es)
  {
    RewiredSubmission(es, id, Validate(post, required).value);
  }

  lemma RewiredSubmission(es: seq<Edge>, id: NodeId, s: Submission)
    requires IsAddressType(s.recordType) ==> s.ipId != ""
    requires s.recordType == "CNAME" ==> s.recordId != ""
    ensures var r := Rewired(es, id, s);
            EdgesOf(r, id, PartOf) == [Edge(id, PartOf, s.zoneId, "DNS_Zone")]
            && EdgesOf(r, id, ResolvesTo)
               == (if IsAddressType(s.recordType) then [Edge(id, ResolvesTo, s.ipId, "IP_Address")]
                   else if s.recordType == "CNAME" then [Edge(id, ResolvesTo, s.recordId, "DNS_Record")]
                   else [])
            && forall e :: !Outgoing(e, id, PartOf) && !Outgoing(e, id, ResolvesTo) ==> (e in r <==> e in es)
  {
    var stripped := WithoutRel(es, id, PartOf);
    var kept := WithoutRel(stripped, id, ResolvesTo);
    EdgesOfAppend(kept, NewEdges(id, s), id, PartOf);
    EdgesOfAppend(kept, NewEdges(id, s), id, ResolvesTo);
    EdgesOfWithoutRel(es, id, PartOf, ResolvesTo);
    EdgesOfWithoutRel(stripped, id, ResolvesTo, PartOf);
    NewEdgesByRel(id, s);
    WithoutRelMembers(es, id, PartOf);
    WithoutRelMembers(stripped, id, ResolvesTo);
  }

  /** `for target in targets: disconnect_nodes(id, rel, target)`. */
  method DisconnectAll(store: Store, id: NodeId, rel: string, targets: seq<Target>)
    modifies store
    ensures store.edges == WithoutTargets(old(store.edges), id, rel, TargetIds(targets))
    ensures store.nodes == old(store.nodes)
  {
    ghost var start := store.edges;
    assert TargetIds(targets[..0]) == {};
    WithoutTargetsNone(start, id, rel);
    for i := 0 to |targets|
      invariant store.edges == WithoutTargets(start, id, rel, TargetIds(targets[..i]))
      invariant store.nodes == old(store.nodes)
    {
      store.Disconnect(id, rel, targets[i].targetId);
      WithoutTargetsStep(start, id, rel, TargetIds(targets[..i]), targets[i].targetId);
      assert TargetIds(targets[..i + 1]) == TargetIds(targets[..i]) + {targets[i].targetId} by {
        assert targets[..i + 1] == targets[..i] + [targets[i]];
      }
    }
    assert targets[..|targets|] == targets;
  }

  /** Connects the record to its zone and, when its type needs one, to its resolution target. */
  method ConnectRecord(store: Store, id: NodeId, s: Submission)
    modifies store
    ensures store.edges == old(store.edges) + NewEdges(id, s)
    ensures store.nodes == old(store.nodes)
  {
    store.Connect(id, PartOf, s.zoneId, "DNS_Zone");
    if IsAddressType(s.recordType) && s.ipId != "" {
      store.Connect(id, ResolvesTo, s.ipId, "IP_Address");
    } else if s.recordType == "CNAME" && s.recordId != "" {
      store.Connect(id, ResolvesTo, s.recordId, "DNS_Record");
    }
  }

  // ---------------------------------------------------------------------
  // The edit modal

  datatype EditOutcome =
    | RecordNotFound                                    // "DNS Record not found."
    | EditCrashed                                       // `upper()` raised before the form was shown
    | EditModal(form: EditForm, error: Option<DnsError>) // the form, with the error of a refused POST
    | Updated                                           // "Node updated successfully"

  /** The form of the edit modal for a record with bag `props` and edges `es`. */
  function EditFormOf(meta: TypeMetadata, props: PropertyBag, es: seq<Edge>, id: NodeId, currentType: string): EditForm {
    var fields := FormFields(meta.properties, meta.required, props);
    EditForm(fields, NameField(fields), OtherFields(fields),
             FirstTarget(Targets(es, id, PartOf)), FirstTarget(Targets(es, id, ResolvesTo)), currentType)
  }

  /**
   * `dns_record_edit_modal`. A GET shows the form. A POST that passes
   * validation replaces the record's whole property bag with the submitted
   * one and rewires its zone and resolution edges; a refused POST shows the
   * form with the error and changes nothing.
   */
  method EditRecord(store: Store, id: NodeId, meta: TypeMetadata, isPost: bool, post: Post)
    returns (outcome: EditOutcome)
    requires DistinctInputs(post)
    modifies store
    ensures id !in old(store.nodes) ==>
              outcome == RecordNotFound && store.nodes == old(store.nodes) && store.edges == old(store.edges)
    ensures id in old(store.nodes) && CurrentType(old(store.nodes)[id]).None? ==>
              outcome == EditCrashed && store.nodes == old(store.nodes) && store.edges == old(store.edges)
    ensures id in old(store.nodes) && CurrentType(old(store.nodes)[id]).Some? ==>
              var form := EditFormOf(meta, old(store.nodes)[id], old(store.edges), id,
                                     CurrentType(old(store.nodes)[id]).value);
              if !isPost || Validate(post, meta.required).Err? then
                outcome == EditModal(form, if isPost then Some(Validate(post, meta.required).error) else None)
                && store.nodes == old(store.nodes) && store.edges == old(store.edges)
              else
                var s := Validate(post, meta.required).value;
                outcome == Updated
                && store.nodes == old(store.nodes)[id := s.props]
                && store.edges == Rewired(old(store.edges), id, s)
  {
    if id !in store.nodes {
      return RecordNotFound;
    }
    var current := store.nodes[id];
    var currentType := CurrentType(current);
    if currentType.None? {
      return EditCrashed;
    }
    var fields := BuildFormFields(meta, current);
    var form := EditForm(fields, NameField(fields), OtherFields(fields),
                         FirstTarget(Targets(store.edges, id, PartOf)),
                         FirstTarget(Targets(store.edges, id, ResolvesTo)), currentType.value);
    if !isPost {
      return EditModal(form, None);
    }
    var collected := CollectProps(post);
    if collected.Err? {
      return EditModal(form, Some(collected.error));
    }
    var checked := CheckSubmission(collected.value, post, meta.required);
    if checked.Err? {
      return EditModal(form, Some(checked.error));
    }
    var s := checked.value;
    var partOf := Targets(store.edges, id, PartOf);
    var resolvesTo := Targets(store.edges, id, ResolvesTo);
    ghost var es := store.edges;
    store.SetProperties(id, s.props);
    DisconnectAll(store, id, PartOf, partOf);
    DisconnectAll(store, id, ResolvesTo, resolvesTo);
    ResetRemovesBoth(es, id);
    ConnectRecord(store, id, s);
    outcome := Updated;
  }

  // ---------------------------------------------------------------------
  // The create modal

  /** How many nodes of each kind the create modal offers. */
  const PickerLimit: nat := 200

  /** An entry of the zone, address or target-record list of the create modal. */
  datatype PickerEntry = PickerEntry(id: NodeId, name: Value)

  /** The first `n` characters of `s`, as `s[:n]`. */
  function Prefix(s: string, n: nat): string {
    if |s| <= n then s else s[..n]
  }

  /**
   * `props.get(k1) or props.get(k2) or ... or element_id[:8]`: the first
   * truthy property among `keys`, else the start of the element id.
   */
  function PickerName(props: PropertyBag, keys: seq<string>, id: NodeId): (r: Value)
    ensures (exists i :: 0 <= i < |keys| && Truthy(Get(props, keys[i], Null))
               && r == Get(props, keys[i], Null)
               && forall j :: 0 <= j < i ==> !Truthy(Get(props, keys[j], Null)))
            || (r == Str(Prefix(id, 8)) && forall i :: 0 <= i < |keys| ==> !Truthy(Get(props, keys[i], Null)))
  {
    if keys == [] then Str(Prefix(id, 8))
    else if Truthy(Get(props, keys[0], Null)) then Get(props, keys[0], Null)
    else
      var r := PickerName(props, keys[1..], id);
      assert forall i :: 1 <= i < |keys| ==> keys[1..][i - 1] == keys[i];
      r
  }

  /** The entries for the first 200 nodes of a listing, in listing order. */
  function Pickers(listing: seq<(NodeId, PropertyBag)>, keys: seq<string>): (r: seq<PickerEntry>)
    ensures |r| == if |listing| < PickerLimit then |listing| else PickerLimit
    ensures forall i :: 0 <= i < |r| ==> r[i].id == listing[i].0
  {
    var n := if |listing| < PickerLimit then |listing| else PickerLimit;
    seq(n, i requires 0 <= i < n => PickerEntry(listing[i].0, PickerName(listing[i].1, keys, listing[i].0)))
  }

  /** An offered entry with a non-empty id always shows a truthy name. */
  lemma PickerNameShown(props: PropertyBag, keys: seq<string>, id: NodeId)
    requires id != ""
    ensures Truthy(PickerName(props, keys, id))
  {
  }

  datatype CreateForm = CreateForm(
    formFields: seq<FormField>,
    nameField: Option<FormField>,
    otherFields: seq<FormField>,
    zones: seq<PickerEntry>,
    ipAddresses: seq<PickerEntry>,
    recordTargets: seq<PickerEntry>)

  datatype CreateOutcome =
    | CreateModal(form: CreateForm, error: Option<DnsError>)
    | Created(id: NodeId)  // "<label> created with ID <id>"

  /** The form of the create modal: empty field values and the three picker lists. */
  function CreateFormOf(meta: TypeMetadata, zones: seq<(NodeId, PropertyBag)>,
                        ips: seq<(NodeId, PropertyBag)>, records: seq<(NodeId, PropertyBag)>): CreateForm
  {
    var fields := FormFields(meta.properties, meta.required, map[]);
    CreateForm(fields, NameField(fields), OtherFields(fields),
               Pickers(zones, ["name", "primary_ns"]), Pickers(ips, ["address", "name"]), Pickers(records, ["name"]))
  }

  /** A field of the create form always starts out as "". */
  lemma CreateFieldsStartEmpty(meta: TypeMetadata, zones: seq<(NodeId, PropertyBag)>,
                               ips: seq<(NodeId, PropertyBag)>, records: seq<(NodeId, PropertyBag)>)
    ensures forall f :: f in CreateFormOf(meta, zones, ips, records).formFields ==> f.value == Str("")
  {
    FormFieldsDescribeDeclarations(meta.properties, meta.required, map[]);
  }

  /**
   * `dns_record_create_modal`. `zones`, `ips` and `records` are the store's
   * listings of DNS_Zone, IP_Address and DNS_Record nodes; `newId` is the
   * element id the store gives the new node. A POST that passes validation
   * creates the record with the submitted bag and connects it; a refused
   * POST changes nothing.
   */
  method CreateRecord(store: Store, meta: TypeMetadata, zones: seq<(NodeId, PropertyBag)>,
                      ips: seq<(NodeId, PropertyBag)>, records: seq<(NodeId, PropertyBag)>,
                      isPost: bool, post: Post, newId: NodeId)
    returns (outcome: CreateOutcome)
    requires DistinctInputs(post)
    requires newId !in store.nodes
    modifies store
    ensures var form := CreateFormOf(meta, zones, ips, records);
            if !isPost || Validate(post, meta.required).Err? then
              outcome == CreateModal(form, if isPost then Some(Validate(post, meta.required).error) else None)
              && store.nodes == old(store.nodes) && store.edges == old(store.edges)
            else
              var s := Validate(post, meta.required).value;
              outcome == Created(newId)
              && store.nodes == old(store.nodes)[newId := s.props]
              && store.edges == old(store.edges) + NewEdges(newId, s)
  {
    var fields := BuildFormFields(meta, map[]);
    var form := CreateForm(fields, NameField(fields), OtherFields(fields),
                           Pickers(zones, ["name", "primary_ns"]), Pickers(ips, ["address", "name"]),
                           Pickers(records, ["name"]));
    if !isPost {
      return CreateModal(form, None);
    }
    var collected := CollectProps(post);
    if collected.Err? {
      return CreateModal(form, Some(collected.error));
    }
    var checked := CheckSubmission(collected.value, post, meta.required);
    if checked.Err? {
      return CreateModal(form, Some(checked.error));
    }
    var s := checked.value;
    store.CreateNode(newId, s.props);
    ConnectRecord(store, newId, s);
    outcome := Created(newId);
  }
}
