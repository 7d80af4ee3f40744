/** The category form (src/components/categories/CategoryForm.tsx): its three
    text fields, how opening the form fills them, the guard and payload of
    the submit handler, and when the submit button is disabled. The create
    and update mutations and the close callback are returned as effects
    instead of being called. */
module CategoryForm {
  import opened Records
  import opened Strings

  /** A stored category, as the form receives it. */
  datatype Category = Category(id: string, nome: string, tags: Option<string>, tipoDespesa: Option<string>)

  /** What the form sends: a trimmed name and tags, and the expense subtype
      or null. */
  datatype Payload = Payload(nome: string, tags: string, tipoDespesa: Option<string>)

  /** The calls the submit handler makes, in order. */
  datatype Effect =
    | CreateCategory(payload: Payload)
    | UpdateCategory(id: string, updates: Payload)
    | Close

  /** `s || ''` for a nullable string. */
  function OrEmpty(s: Option<string>): (r: string)
    ensures r == "" <==> !Truthy(s)
    ensures Truthy(s) ==> r == s.value
  {
    if s.Some? then s.value else ""
  }

  /** `tipoDespesa || null`: the empty selection is sent as null. */
  function OrNull(s: string): (r: Option<string>)
    ensures r.None? <==> s == ""
    ensures r.Some? ==> r.value == s
  {
    if s == "" then None else Some(s)
  }

  /** The form's state: the three fields it keeps with `useState`. */
  class FormState {
    var nome: string
    var tags: string
    var tipoDespesa: string

    /** Every field starts empty. */
    constructor()
      ensures nome == "" && tags == "" && tipoDespesa == ""
    {
      nome := "";
      tags := "";
      tipoDespesa := "";
    }

    /** The effect that runs when the form is given a category (or none):
        editing copies the name and the tags and subtype, with null read as
        empty; creating clears all three. */
    method Load(category: Option<Category>)
      modifies this
      ensures category.Some? ==>
        nome == category.value.nome && tags == OrEmpty(category.value.tags)
        && tipoDespesa == OrEmpty(category.value.tipoDespesa)
      ensures category.None? ==> nome == "" && tags == "" && tipoDespesa == ""
    {
      if category.Some? {
        nome := category.value.nome;
        tags := OrEmpty(category.value.tags);
        tipoDespesa := OrEmpty(category.value.tipoDespesa);
      } else {
        nome := "";
        tags := "";
        tipoDespesa := "";
      }
    }
  }

  /** `handleSubmit` on the field values: nothing happens for a blank name;
      otherwise an update of the given category, or a create when there is
      none, with trimmed name and tags and an empty subtype sent as null,
      followed by closing the form. */
  function HandleSubmit(nome: string, tags: string, tipoDespesa: string, category: Option<Category>): (effects: seq<Effect>)
    ensures effects == [] <==> AllWhitespace(nome)
    ensures effects != [] ==> |effects| == 2 && effects[1] == Close
    ensures effects != [] ==> (effects[0].UpdateCategory? <==> category.Some?)
    ensures effects != [] && category.Some? ==> effects[0] == UpdateCategory(category.value.id, Payload(Trim(nome), Trim(tags), OrNull(tipoDespesa)))
    ensures effects != [] && category.None? ==> effects[0] == CreateCategory(Payload(Trim(nome), Trim(tags), OrNull(tipoDespesa)))
  {
    if Trim(nome) == "" then []
    else
      var payload := Payload(Trim(nome), Trim(tags), OrNull(tipoDespesa));
      if category.Some? then [UpdateCategory(category.value.id, payload), Close]
      else [CreateCategory(payload), Close]
  }

  /** The payload a submit sends, if it sends one. */
  function Sent(effects: seq<Effect>): Option<Payload> {
    if effects == [] then None
    else match effects[0]
      case CreateCategory(p) => Some(p)
      case UpdateCategory(_, p) => Some(p)
      case Close => None
  }

  /** A submit sends a payload exactly when the name is not blank. */
  lemma SentIffNameNotBlank(nome: string, tags: string, tipoDespesa: string, category: Option<Category>)
    ensures Sent(HandleSubmit(nome, tags, tipoDespesa, category)) ==
      if AllWhitespace(nome) then None else Some(Payload(Trim(nome), Trim(tags), OrNull(tipoDespesa)))
  {
  }

  /** A sent name is never empty and has no whitespace at either end, and
      the sent tags are trimmed: trimming them again changes nothing. */
  lemma SentPayloadIsTrimmed(nome: string, tags: string, tipoDespesa: string, category: Option<Category>, p: Payload)
    requires Sent(HandleSubmit(nome, tags, tipoDespesa, category)) == Some(p)
    ensures p.nome != "" && Trim(p.nome) == p.nome && Trim(p.tags) == p.tags
  {
    SentIffNameNotBlank(nome, tags, tipoDespesa, category);
    TrimIdempotent(nome);
    TrimIdempotent(tags);
  }

  /** `!nome.trim() || isCreating || isUpdating`: the button is disabled
      while the name is blank or a mutation is in flight. */
  predicate SubmitDisabled(nome: string, isCreating: bool, isUpdating: bool)
    ensures SubmitDisabled(nome, isCreating, isUpdating) <==> AllWhitespace(nome) || isCreating || isUpdating
  {
    Trim(nome) == "" || isCreating || isUpdating
  }

  /** The button and the guard agree: while no mutation is in flight, the
      button is enabled exactly when a submit would dispatch something. */
  lemma SubmitEnabledIffDispatches(nome: string, tags: string, tipoDespesa: string, category: Option<Category>)
    ensures !SubmitDisabled(nome, false, false) <==> HandleSubmit(nome, tags, tipoDespesa, category) != []
  {
  }

  /** Opening a category and saving it without edits sends back its own
      name, its tags with null turned into the empty string, and its subtype
      with the empty string turned into null, when name and tags were
      already trimmed. */
  lemma UnchangedEditRoundTrip(c: Category)
    requires !AllWhitespace(c.nome) && Trim(c.nome) == c.nome
    requires Trim(OrEmpty(c.tags)) == OrEmpty(c.tags)
    ensures HandleSubmit(c.nome, OrEmpty(c.tags), OrEmpty(c.tipoDespesa), Some(c)) ==
      [UpdateCategory(c.id, Payload(c.nome, OrEmpty(c.tags), if Truthy(c.tipoDespesa) then c.tipoDespesa else None)), Close]
  {
  }
}
