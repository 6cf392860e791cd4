/**
 * The pure half of uploadRecipe: pick the ingredient fields out of the
 * submitted form, parse each "quantity,unit,description" value, and build
 * the payload that is posted to the API. The form is the sequence of its
 * entries in Object.entries order, name first.
 */
module IngredientForm {
  import opened Wrappers
  import opened Recipes

  /** The message of the error thrown for a malformed ingredient value. */
  const WrongFormat := "Wrong Ingredient Format! Please use the correct Format"

  /** The name prefix that marks a form field as an ingredient. */
  const IngredientPrefix := "ingredient"

  /** An ingredient as it leaves the form; the quantity is still text (None for null). */
  datatype FormIngredient = FormIngredient(quantity: Option<string>, unit: string, description: string)

  /** The body posted to the upload endpoint, in the API's field names. */
  datatype Payload = Payload(
    title: Option<string>, source_url: Option<string>, image_url: Option<string>,
    publisher: Option<string>, cooking_time: Option<string>, servings: Option<string>,
    ingredients: seq<FormIngredient>)

  /** `s.startsWith(prefix)`. */
  function StartsWith(s: string, prefix: string): (b: bool)
    ensures b <==> |prefix| <= |s| && forall i :: 0 <= i < |prefix| ==> s[i] == prefix[i]
  {
    |prefix| <= |s| && s[..|prefix|] == prefix
  }

  /** How many times `c` occurs in `s`. */
  function Occurrences(s: string, c: char): (n: nat) {
    if |s| == 0 then 0 else (if s[0] == c then 1 else 0) + Occurrences(s[1..], c)
  }

  /** The parts joined back together with `sep` between neighbours. */
  function Join(parts: seq<string>, sep: char): (s: string) {
    if |parts| == 0 then ""
    else if |parts| == 1 then parts[0]
    else parts[0] + [sep] + Join(parts[1..], sep)
  }

  /**
   * `s.split(sep)` for a one-character separator: the maximal runs between
   * separators, including empty ones, so there is always one part more than
   * there are separators.
   */
  function Split(s: string, sep: char): (parts: seq<string>)
    ensures |parts| == Occurrences(s, sep) + 1
    ensures forall i :: 0 <= i < |parts| ==> sep !in parts[i]
    ensures Join(parts, sep) == s
  {
    if |s| == 0 then [""]
    else
      var rest := Split(s[1..], sep);
      if s[0] == sep then [""] + rest
      else
        var parts := [[s[0]] + rest[0]] + rest[1..];
        assert parts[1..] == rest[1..];
        assert s == [s[0]] + s[1..];
        parts
  }

  /** Split on text that starts with a non-separator: the character joins the first part. */
  lemma SplitCons(c: char, u: string, sep: char)
    requires c != sep
    ensures Split([c] + u, sep) == [[c] + Split(u, sep)[0]] + Split(u, sep)[1..]
  {
    assert ([c] + u)[1..] == u;
  }

  /** Splitting a separator-free prefix followed by more text extends the first part of the rest. */
  lemma {:induction false} SplitSeparatorFree(p: string, t: string, sep: char)
    requires sep !in p
    ensures Split(p + t, sep) == [p + Split(t, sep)[0]] + Split(t, sep)[1..]
  {
    var st := Split(t, sep);
    if |p| == 0 {
      assert p + t == t;
      assert p + st[0] == st[0];
      assert st == [st[0]] + st[1..];
    } else {
      assert p[0] in p;
      SplitSeparatorFree(p[1..], t, sep);
      assert p + t == [p[0]] + (p[1..] + t);
      SplitCons(p[0], p[1..] + t, sep);
      assert [p[0]] + (p[1..] + st[0]) == p + st[0];
    }
  }

  /** Split on text that starts with the separator: an empty first part, then the split of the rest. */
  lemma SplitSep(u: string, sep: char)
    ensures Split([sep] + u, sep) == [""] + Split(u, sep)
  {
    assert ([sep] + u)[1..] == u;
  }

  /** Split undoes Join: separator-free parts come back exactly. */
  lemma {:induction false} SplitJoin(parts: seq<string>, sep: char)
    requires |parts| >= 1
    requires forall i :: 0 <= i < |parts| ==> sep !in parts[i]
    ensures Split(Join(parts, sep), sep) == parts
  {
    var head := parts[0];
    assert sep !in head;
    if |parts| == 1 {
      SplitSeparatorFree(head, "", sep);
      assert head + "" == head;
      assert head + [] == head;
    } else {
      var tail := Join(parts[1..], sep);
      assert Join(parts, sep) == head + ([sep] + tail);
      SplitJoin(parts[1..], sep);
      SplitSep(tail, sep);
      SplitSeparatorFree(head, [sep] + tail, sep);
      var st := Split([sep] + tail, sep);
      assert st == [""] + parts[1..];
      assert st[0] == "" && st[1..] == parts[1..];
      assert head + "" == head;
      assert parts == [head] + parts[1..];
    }
  }

  /** The text a quantity was parsed from: empty for null. */
  function QuantityText(q: Option<string>): (text: string) {
    if q.Some? then q.value else ""
  }

  /**
   * One ingredient value: it must split on ',' into exactly three parts
   * (quantity, unit, description, none trimmed); an empty quantity becomes null.
   */
  function ParseIngredient(value: string): (r: Result<FormIngredient, AppError>)
    ensures r.Success? <==> Occurrences(value, ',') == 2
    ensures r.Failure? ==> r.error == ValidationError(WrongFormat)
    ensures r.Success? ==>
              r.value.quantity != Some("") &&
              ',' !in QuantityText(r.value.quantity) && ',' !in r.value.unit && ',' !in r.value.description &&
              value == QuantityText(r.value.quantity) + "," + r.value.unit + "," + r.value.description
  {
    var parts := Split(value, ',');
    if |parts| != 3 then Failure(ValidationError(WrongFormat))
    else
      assert parts[1..][1..] == [parts[2]];
      assert Join(parts[1..][1..], ',') == parts[2];
      assert Join(parts[1..], ',') == parts[1] + [','] + parts[2];
      assert value == parts[0] + [','] + (parts[1] + [','] + parts[2]);
      assert value == parts[0] + "," + parts[1] + "," + parts[2];
      Success(FormIngredient(if parts[0] == "" then None else Some(parts[0]), parts[1], parts[2]))
  }

  /** The parse is the only comma-free reading of the value: parsing an ingredient's own text gives it back. */
  lemma ParseIngredientRoundTrip(ing: FormIngredient)
    requires ing.quantity != Some("")
    requires ',' !in QuantityText(ing.quantity) && ',' !in ing.unit && ',' !in ing.description
    ensures ParseIngredient(QuantityText(ing.quantity) + "," + ing.unit + "," + ing.description) == Success(ing)
  {
    var parts := [QuantityText(ing.quantity), ing.unit, ing.description];
    assert Join(parts, ',') == QuantityText(ing.quantity) + "," + ing.unit + "," + ing.description by {
      assert parts[1..][1..] == [ing.description];
      assert Join(parts[1..], ',') == ing.unit + [','] + ing.description;
    }
    SplitJoin(parts, ',');
  }

  /** Occurrences adds up over concatenation. */
  lemma {:induction false} OccurrencesConcat(a: string, b: string, c: char)
    ensures Occurrences(a + b, c) == Occurrences(a, c) + Occurrences(b, c)
  {
    if |a| > 0 {
      assert (a + b)[1..] == a[1..] + b;
      OccurrencesConcat(a[1..], b, c);
    } else {
      assert a + b == b;
    }
  }

  /** A character that is not in a string occurs in it zero times. */
  lemma {:induction false} OccurrencesAbsent(s: string, c: char)
    requires c !in s
    ensures Occurrences(s, c) == 0
  {
    if |s| > 0 {
      assert s[0] in s;
      assert forall x :: x in s[1..] ==> x in s;
      OccurrencesAbsent(s[1..], c);
    }
  }

  /** "2,cups,flour" parses to quantity "2", unit "cups", description "flour". */
  lemma ParseIngredientWellFormedExample()
    ensures ParseIngredient("2,cups,flour") == Success(FormIngredient(Some("2"), "cups", "flour"))
  {
    assert "2,cups,flour" == "2" + "," + "cups" + "," + "flour";
    ParseIngredientRoundTrip(FormIngredient(Some("2"), "cups", "flour"));
  }

  /** An empty quantity is null: ",,salt" has no quantity, an empty unit and the description "salt". */
  lemma ParseIngredientEmptyQuantityExample()
    ensures ParseIngredient(",,salt") == Success(FormIngredient(None, "", "salt"))
  {
    assert ",,salt" == "" + "," + "" + "," + "salt";
    ParseIngredientRoundTrip(FormIngredient(None, "", "salt"));
  }

  /** "2,cups" has two parts, not three, and is rejected with the format error. */
  lemma ParseIngredientTwoPartsExample()
    ensures ParseIngredient("2,cups") == Failure(ValidationError(WrongFormat))
  {
    assert "2,cups" == "2" + ("," + "cups");
    OccurrencesConcat("2", "," + "cups", ',');
    OccurrencesConcat(",", "cups", ',');
    OccurrencesAbsent("2", ',');
    OccurrencesAbsent("cups", ',');
    assert Occurrences(",", ',') == 1;
  }

  /** The filter of uploadRecipe: an ingredient field with a non-empty value. */
  predicate IsIngredientEntry(entry: (string, string)) {
    StartsWith(entry.0, IngredientPrefix) && entry.1 != ""
  }

  /** The values of the ingredient entries of the form, in form order. */
  function Kept(form: seq<(string, string)>): (r: seq<string>)
    ensures |r| <= |form|
    ensures forall k :: 0 <= k < |r| ==> r[k] != ""
  {
    if |form| == 0 then []
    else (if IsIngredientEntry(form[0]) then [form[0].1] else []) + Kept(form[1..])
  }

  /**
   * The filter works entry by entry: what it keeps from a form is what it
   * keeps from the first part followed by what it keeps from the rest. With
   * KeptSingle this determines Kept completely: exactly the ingredient
   * entries' values, in form order.
   */
  lemma {:induction false} KeptConcat(a: seq<(string, string)>, b: seq<(string, string)>)
    ensures Kept(a + b) == Kept(a) + Kept(b)
  {
    if |a| == 0 {
      assert a + b == b;
    } else {
      assert (a + b)[1..] == a[1..] + b;
      KeptConcat(a[1..], b);
    }
  }

  /** A single entry is kept, as its value, exactly when it is an ingredient entry. */
  lemma KeptSingle(entry: (string, string))
    ensures Kept([entry]) == if IsIngredientEntry(entry) then [entry.1] else []
  {
  }

  /** The map of uploadRecipe: every kept value parsed in order; the first malformed one aborts with its error. */
  function ParseAll(values: seq<string>): (r: Result<seq<FormIngredient>, AppError>)
    ensures r.Success? <==> forall i :: 0 <= i < |values| ==> Occurrences(values[i], ',') == 2
    ensures r.Failure? ==> r.error == ValidationError(WrongFormat)
    ensures r.Success? ==>
              |r.value| == |values| &&
              forall i :: 0 <= i < |values| ==> ParseIngredient(values[i]) == Success(r.value[i])
  {
    if |values| == 0 then Success([])
    else
      match ParseIngredient(values[0])
      case Failure(e) => Failure(e)
      case Success(ing) =>
        match ParseAll(values[1..])
        case Failure(e) => Failure(e)
        case Success(rest) => Success([ing] + rest)
  }

  /** `newRecipe[name]`: the value of the entry with that name, undefined if there is none. */
  function Field(form: seq<(string, string)>, name: string): (r: Option<string>)
    ensures r.Some? <==> exists i :: 0 <= i < |form| && form[i].0 == name
    ensures r.Some? ==> exists i :: 0 <= i < |form| && form[i] == (name, r.value)
  {
    if |form| == 0 then None
    else if form[0].0 == name then Some(form[0].1)
    else
      var r := Field(form[1..], name);
      assert forall i :: 1 <= i < |form| ==> form[1..][i - 1] == form[i];
      r
  }

  /**
   * Everything uploadRecipe does before the network call: it fails exactly
   * when some ingredient value is malformed, and otherwise carries one parsed
   * ingredient per kept entry and the form's other fields under their API names.
   */
  function BuildPayload(form: seq<(string, string)>): (r: Result<Payload, AppError>)
    ensures r.Success? <==> forall k :: 0 <= k < |Kept(form)| ==> Occurrences(Kept(form)[k], ',') == 2
    ensures r.Failure? ==> r.error == ValidationError(WrongFormat)
    ensures r.Success? ==>
              |r.value.ingredients| == |Kept(form)| &&
              (forall k :: 0 <= k < |Kept(form)| ==> ParseIngredient(Kept(form)[k]) == Success(r.value.ingredients[k])) &&
              r.value.title == Field(form, "title") && r.value.source_url == Field(form, "sourceUrl") &&
              r.value.image_url == Field(form, "image") && r.value.publisher == Field(form, "publisher") &&
              r.value.cooking_time == Field(form, "cookingTime") && r.value.servings == Field(form, "servings")
  {
    match ParseAll(Kept(form))
    case Failure(e) => Failure(e)
    case Success(ingredients) =>
      Success(Payload(Field(form, "title"), Field(form, "sourceUrl"), Field(form, "image"),
                      Field(form, "publisher"), Field(form, "cookingTime"), Field(form, "servings"),
                      ingredients))
  }
}
