/** The admin dashboard of src/pages/Admin.tsx: the product form's submit
    (required fields, the `Key: Value` specs parser, the `featured` default),
    the specs formatter that fills the form for an edit, and the order-status
    buttons. */
module Admin {
  import opened Types
  import opened JsString
  import JsArray
  import StoreContext

  // ---------------------------------------------------------------------------
  // Specs record

  /** The first entry with key `k`, read as `specs[k]`. */
  function Lookup(specs: Specs, k: string): Option<string> {
    if |specs| == 0 then None
    else if specs[0].0 == k then Some(specs[0].1)
    else Lookup(specs[1..], k)
  }

  predicate DistinctKeys(specs: Specs) {
    forall i, j :: 0 <= i < j < |specs| ==> specs[i].0 != specs[j].0
  }

  /** The keys in entry order, as `Object.keys` lists them. */
  function KeysOf(specs: Specs): (ks: seq<string>)
    ensures |ks| == |specs|
    ensures forall i :: 0 <= i < |specs| ==> ks[i] == specs[i].0
  {
    if |specs| == 0 then [] else [specs[0].0] + KeysOf(specs[1..])
  }

  /** The one key a plain object does not store: assigning a string to it
      reaches the `Object.prototype.__proto__` setter, which ignores it. */
  const ProtoKey := "__proto__"

  /** `specs[k] = v` on a plain object: afterwards `k` reads `v` and every
      other key reads what it read before; `__proto__` is left unset. */
  function Assign(specs: Specs, k: string, v: string): (r: Specs)
    ensures k == ProtoKey ==> r == specs
    ensures k != ProtoKey ==> Lookup(r, k) == Some(v)
    ensures forall k' :: k' != k ==> Lookup(r, k') == Lookup(specs, k')
  {
    if k == ProtoKey then specs
    else if |specs| == 0 then [(k, v)]
    else if specs[0].0 == k then [(k, v)] + specs[1..]
    else [specs[0]] + Assign(specs[1..], k, v)
  }

  /** An existing key keeps its place, a new key goes last, `__proto__` is not added. */
  lemma {:induction false} AssignKeys(specs: Specs, k: string, v: string)
    ensures KeysOf(Assign(specs, k, v)) ==
      if k == ProtoKey || k in KeysOf(specs) then KeysOf(specs) else KeysOf(specs) + [k]
    ensures k != ProtoKey && k !in KeysOf(specs) ==> Assign(specs, k, v) == specs + [(k, v)]
  {
    if k != ProtoKey && |specs| > 0 {
      assert KeysOf(specs) == [specs[0].0] + KeysOf(specs[1..]);
      if specs[0].0 != k {
        AssignKeys(specs[1..], k, v);
        var rest := Assign(specs[1..], k, v);
        assert KeysOf([specs[0]] + rest) == [specs[0].0] + KeysOf(rest);
        assert [specs[0]] + (specs[1..] + [(k, v)]) == specs + [(k, v)];
      } else {
        assert KeysOf([(k, v)] + specs[1..]) == [k] + KeysOf(specs[1..]);
      }
    }
  }

  /** Assignment never makes a key appear twice. */
  lemma {:induction false} AssignDistinct(specs: Specs, k: string, v: string)
    requires DistinctKeys(specs)
    ensures DistinctKeys(Assign(specs, k, v))
  {
    AssignKeys(specs, k, v);
    var r := Assign(specs, k, v);
    var ks, rs := KeysOf(specs), KeysOf(r);
    forall i, j | 0 <= i < j < |r| ensures r[i].0 != r[j].0 {
      if j < |specs| {
        assert rs[i] == ks[i] && rs[j] == ks[j];
      } else {
        assert rs[j] == k && rs[i] == ks[i];
      }
    }
  }

  // ---------------------------------------------------------------------------
  // Specs parser (lines 34-38)

  /** One line of the specs box: accepted when its first `:` is past index 0;
      the key is the trimmed text before that colon, the value the trimmed
      text after it, colons included. */
  function ParseSpecLine(line: string): (r: Option<(string, string)>)
    ensures r.Some? <==> ':' in line && line[0] != ':'
    ensures r.Some? ==> exists i :: 0 < i < |line| && line[i] == ':' && ':' !in line[..i]
                                   && r.value == (Trim(line[..i]), Trim(line[i + 1..]))
  {
    var idx := IndexOf(line, ':');
    if idx > 0 then Some((Trim(line[..idx]), Trim(line[idx + 1..]))) else None
  }

  /** One step of the `forEach`. */
  function AcceptLine(specs: Specs, line: string): Specs {
    match ParseSpecLine(line)
    case Some((k, v)) => Assign(specs, k, v)
    case None => specs
  }

  /** The record built from the lines, in the order `forEach` visits them. */
  function SpecsFromLines(lines: seq<string>): Specs {
    if |lines| == 0 then [] else AcceptLine(SpecsFromLines(lines[..|lines| - 1]), lines[|lines| - 1])
  }

  /** `specsText.split('\n').filter(Boolean)` */
  function SpecLines(specsText: string): seq<string> {
    JsArray.Filter(Split(specsText, '\n'), (line: string) => line != "")
  }

  /** What the parser is meant to produce from the whole text. */
  function SpecsOf(specsText: string): Specs {
    SpecsFromLines(SpecLines(specsText))
  }

  /** Lines 34-38: the loop that fills `specs`. */
  method ParseSpecs(specsText: string) returns (specs: Specs)
    ensures specs == SpecsOf(specsText)
    ensures DistinctKeys(specs)
  {
    var lines := SpecLines(specsText);
    specs := [];
    var i := 0;
    while i < |lines|
      invariant 0 <= i <= |lines|
      invariant specs == SpecsFromLines(lines[..i])
    {
      assert lines[..i + 1][..i] == lines[..i];
      specs := AcceptLine(specs, lines[i]);
      i := i + 1;
    }
    assert lines[..|lines|] == lines;
    SpecsFromLinesLookup(lines, "");
  }

  /** The value a key ends up with: that of the LAST accepted line carrying
      it, so a later line overwrites an earlier one; `__proto__` gets none. */
  function LastValue(lines: seq<string>, k: string): Option<string> {
    if |lines| == 0 || k == ProtoKey then None
    else
      var p := ParseSpecLine(lines[|lines| - 1]);
      if p.Some? && p.value.0 == k then Some(p.value.1) else LastValue(lines[..|lines| - 1], k)
  }

  lemma {:induction false} SpecsFromLinesLookup(lines: seq<string>, k: string)
    ensures Lookup(SpecsFromLines(lines), k) == LastValue(lines, k)
    ensures DistinctKeys(SpecsFromLines(lines))
  {
    if |lines| > 0 {
      SpecsFromLinesLookup(lines[..|lines| - 1], k);
      var p := ParseSpecLine(lines[|lines| - 1]);
      if p.Some? {
        AssignDistinct(SpecsFromLines(lines[..|lines| - 1]), p.value.0, p.value.1);
      }
    }
  }

  /** A `__proto__: …` line never shows up in the record. */
  lemma {:induction false} ProtoKeyNeverStored(lines: seq<string>)
    ensures ProtoKey !in KeysOf(SpecsFromLines(lines))
  {
    if |lines| > 0 {
      var init := lines[..|lines| - 1];
      ProtoKeyNeverStored(init);
      var p := ParseSpecLine(lines[|lines| - 1]);
      if p.Some? {
        AssignKeys(SpecsFromLines(init), p.value.0, p.value.1);
      }
    }
  }

  // ---------------------------------------------------------------------------
  // Specs formatter (line 25) and the round trip

  function SpecLine(e: (string, string)): string {
    e.0 + ": " + e.1
  }

  /** `Object.entries(specs).map(([k, v]) => `${k}: ${v}`).join('\n')` */
  function FormatSpecs(specs: Specs): string {
    Join(JsArray.Map(specs, SpecLine), '\n')
  }

  /** Key non-empty, not `__proto__`, already trimmed, free of `:` and
      newline; value already trimmed and free of newline. */
  predicate CleanEntry(e: (string, string)) {
    && e.0 != "" && e.0 != ProtoKey && Trim(e.0) == e.0 && ':' !in e.0 && '\n' !in e.0
    && Trim(e.1) == e.1 && '\n' !in e.1
  }

  /** Clean entries and no key twice: the records the formatter and parser agree on. */
  predicate CleanSpecs(specs: Specs) {
    DistinctKeys(specs) && forall i :: 0 <= i < |specs| ==> CleanEntry(specs[i])
  }

  /** A formatted line parses back into its key and value. */
  lemma ParseSpecLineOfFormat(k: string, v: string)
    requires k != "" && Trim(k) == k && ':' !in k && Trim(v) == v
    ensures ParseSpecLine(SpecLine((k, v))) == Some((k, v))
  {
    var line := SpecLine((k, v));
    assert line == k + [':'] + (" " + v);
    IndexOfFirst(k, " " + v, ':');
    assert line[..|k|] == k;
    assert line[|k| + 1..] == " " + v;
    TrimLeadingSpace(v);
  }

  lemma LastKeyFresh(specs: Specs)
    requires |specs| > 0 && DistinctKeys(specs)
    ensures specs[|specs| - 1].0 !in KeysOf(specs[..|specs| - 1])
  {
    var init := specs[..|specs| - 1];
    forall i | 0 <= i < |init| ensures KeysOf(init)[i] != specs[|specs| - 1].0 {
      assert KeysOf(init)[i] == specs[i].0;
    }
  }

  lemma SpecsFromLinesSnoc(lines: seq<string>, line: string)
    ensures SpecsFromLines(lines + [line]) == AcceptLine(SpecsFromLines(lines), line)
  {
    assert (lines + [line])[..|lines|] == lines;
  }

  lemma {:induction false} SpecsFromFormattedLines(specs: Specs)
    requires CleanSpecs(specs)
    ensures SpecsFromLines(JsArray.Map(specs, SpecLine)) == specs
  {
    if |specs| > 0 {
      var n := |specs|;
      var init, last := specs[..n - 1], specs[n - 1];
      var lines := JsArray.Map(specs, SpecLine);
      assert CleanSpecs(init) by {
        assert forall i :: 0 <= i < |init| ==> init[i] == specs[i];
      }
      JsArray.MapSnoc(specs, SpecLine);
      JsArray.SnocParts(specs);
      SpecsFromFormattedLines(init);
      assert CleanEntry(last);
      ParseSpecLineOfFormat(last.0, last.1);
      LastKeyFresh(specs);
      AssignKeys(init, last.0, last.1);
      SpecsFromLinesSnoc(JsArray.Map(init, SpecLine), SpecLine(last));
    }
  }

  /** Formatting a clean record and parsing the text back gives the same record. */
  lemma FormatParseRoundTrip(specs: Specs)
    requires CleanSpecs(specs)
    ensures SpecsOf(FormatSpecs(specs)) == specs
  {
    var lines := JsArray.Map(specs, SpecLine);
    if |specs| == 0 {
      assert SpecLines(FormatSpecs(specs)) == [];
    } else {
      forall i | 0 <= i < |lines| ensures '\n' !in lines[i] && lines[i] != "" {
        assert lines[i] == specs[i].0 + ": " + specs[i].1;
      }
      SplitJoin(lines, '\n');
      JsArray.FilterKeepsAll(lines, (line: string) => line != "");
      SpecsFromFormattedLines(specs);
    }
  }

  /** The initial text of the specs box: formatted for an edit, empty for a new product. */
  function InitialSpecsText(initial: Option<Product>): string {
    if initial.Some? then FormatSpecs(initial.value.specs) else ""
  }

  /** Saving an edit without touching the specs box keeps a clean record as it was. */
  lemma EditKeepsSpecs(p: Product)
    requires CleanSpecs(p.specs)
    ensures SpecsOf(InitialSpecsText(Some(p))) == p.specs
  {
    FormatParseRoundTrip(p.specs);
  }

  // ---------------------------------------------------------------------------
  // Product form submit (lines 28-40)

  /** The text boxes of the product form. */
  datatype ProductFields = ProductFields(
    name: string, price: string, category: string, description: string, image: string, specsText: string)

  /** `handleSubmit`: `None` when a required box is blank (a toast, and
      `onSave` is not called); otherwise the draft handed to `onSave`.
      `price` stands for `parseFloat` of the price box. */
  method SubmitProductForm(fields: ProductFields, initial: Option<Product>, price: real)
    returns (saved: Option<ProductDraft>)
    ensures saved.None? <==> IsBlank(fields.name) || IsBlank(fields.price) || IsBlank(fields.category)
    ensures saved.Some? ==> saved.value == ProductDraft(
      fields.name, price, Some(fields.image), fields.category, Some(fields.description),
      SpecsOf(fields.specsText), initial.Some? && initial.value.featured, None)
  {
    if IsBlank(fields.name) || IsBlank(fields.price) || IsBlank(fields.category) {
      return None;
    }
    var specs := ParseSpecs(fields.specsText);
    var featured := if initial.Some? then initial.value.featured else false;
    saved := Some(ProductDraft(
      fields.name, price, Some(fields.image), fields.category, Some(fields.description),
      specs, featured, None));
  }

  /** The keys of an `Omit<Product, 'id'>` object as a patch: never an `id`;
      an optional field only when the object has it. */
  function PatchOf(d: ProductDraft): (u: ProductPatch)
    ensures u.id.None?
  {
    ProductPatch(
      None, Some(d.name), Some(d.price), if d.image.Some? then Some(d.image) else None,
      Some(d.category), if d.description.Some? then Some(d.description) else None,
      Some(d.specs), Some(d.featured), if d.createdAt.Some? then Some(d.createdAt) else None)
  }

  /** Line 129, `updateProduct(p.id, data)`: every product with that id keeps
      its id and creation time and takes the rest from the form's draft. */
  lemma EditSaveKeepsId(ps: seq<Product>, p: Product, d: ProductDraft, i: nat)
    requires i < |ps| && ps[i].id == p.id
    requires d.image.Some? && d.description.Some? && d.createdAt.None?
    ensures StoreContext.UpdateProducts(ps, p.id, PatchOf(d))[i]
            == d.(createdAt := ps[i].createdAt).WithId(p.id)
  {
  }

  // ---------------------------------------------------------------------------
  // Order-status buttons (lines 191-201)

  /** The targets offered for an order in `s`: "Mark Processing" only while
      pending, "Mark Fulfilled" until fulfilled. */
  function StatusControls(s: Status): seq<Status> {
    if s == Fulfilled then []
    else if s == Pending then [Processing, Fulfilled]
    else [Fulfilled]
  }

  function Rank(s: Status): nat {
    match s
    case Pending => 0
    case Processing => 1
    case Fulfilled => 2
  }

  /** Every button moves the status strictly forward; none is offered once fulfilled. */
  lemma ControlsMoveForward(s: Status)
    ensures forall t :: t in StatusControls(s) ==> Rank(s) < Rank(t)
    ensures StatusControls(s) == [] <==> s == Fulfilled
  {
  }

  /** The status after pressing the buttons in `presses`, each of which must be on offer. */
  predicate PressesValid(s: Status, presses: seq<Status>)
    decreases |presses|
  {
    |presses| == 0 || (presses[0] in StatusControls(s) && PressesValid(presses[0], presses[1..]))
  }

  function AfterPresses(s: Status, presses: seq<Status>): Status
    decreases |presses|
  {
    if |presses| == 0 then s else AfterPresses(presses[0], presses[1..])
  }

  /** Through the dashboard an order only goes forward, and any press at
      all changes its status; at most two presses are ever possible. */
  lemma {:induction false} PressesOnlyForward(s: Status, presses: seq<Status>)
    requires PressesValid(s, presses)
    ensures Rank(s) <= Rank(AfterPresses(s, presses))
    ensures |presses| > 0 ==> Rank(s) < Rank(AfterPresses(s, presses))
    ensures |presses| <= 2 - Rank(s)
    decreases |presses|
  {
    if |presses| > 0 {
      ControlsMoveForward(s);
      PressesOnlyForward(presses[0], presses[1..]);
    }
  }
}
