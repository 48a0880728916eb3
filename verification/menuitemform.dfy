/**
 * The embeddable menu item form (src/components/AdminMenuItemForm.jsx): the same inputs
 * as the menu form page, a subcategory select that offers a "new, text only" entry, and a
 * JSON submission that updates (PUT) an item with an id and creates (POST) one otherwise.
 */
module AdminMenuItemForm {
  import opened Optional
  import opened Text
  import opened Menu
  import opened Http

  const FALLBACK_BASE := "http://localhost:10000/api"
  const SNACKS := "Snacks"
  /** The select's value for "-- Add a new one (text only) --". */
  const NEW_SUBCATEGORY := "NEW_SUBCATEGORY"

  /** `API_BASE_URL` */
  function ApiBase(viteApiUrl: string): (r: string)
    ensures r != ""
    ensures viteApiUrl != "" ==> r == viteApiUrl
  {
    if viteApiUrl != "" then viteApiUrl else FALLBACK_BASE
  }

  /** The `initialData` prop; an absent id or subcategory is "". */
  datatype InitialData = InitialData(id: string, name: string, price: int, category: string, stock: string, subCategory: string)

  /**
   * The `formData` object: the inputs; the `id` key, present once `initialData` was
   * loaded; and whether `handleChange` has added a `newSubCategory` key to it.
   */
  datatype FormData = FormData(id: Option<string>, fields: FormFields, hasNewSubCategoryKey: bool)
  {
    /** `formData.id` is truthy. */
    predicate HasId() {
      id.Some? && id.value != ""
    }
  }

  const INITIAL_FORM := FormData(None, FormFields("", "", SNACKS, "Available", ""), false)

  /** The state `handleChange` acts on: the form and the text of the "new" subcategory input. */
  datatype Inputs = Inputs(form: FormData, newSubCategoryText: string)

  /**
   * `handleChange`: the named field takes the value. Choosing a category other than
   * Snacks also clears the subcategory, the text of a new one, and sets a
   * `newSubCategory` key to ""; choosing a subcategory other than the "new" entry
   * clears the text. Nothing else changes.
   */
  function Changed(s: Inputs, f: FormField, v: string): (r: Inputs)
    ensures r.form.fields.Get(f) == v && r.form.id == s.form.id
    ensures f == CategoryField && v != SNACKS ==>
      r.form.fields.subCategory == "" && r.newSubCategoryText == "" && r.form.hasNewSubCategoryKey
    ensures f == SubCategoryField && v != NEW_SUBCATEGORY ==> r.newSubCategoryText == ""
    ensures !(f == CategoryField && v != SNACKS) ==> r.form.hasNewSubCategoryKey == s.form.hasNewSubCategoryKey
    ensures !(f == CategoryField && v != SNACKS) && !(f == SubCategoryField && v != NEW_SUBCATEGORY) ==>
      r.newSubCategoryText == s.newSubCategoryText
    ensures forall g :: g != f && !(f == CategoryField && v != SNACKS && g == SubCategoryField) ==>
      r.form.fields.Get(g) == s.form.fields.Get(g)
  {
    var form := s.form.(fields := s.form.fields.Set(f, v));
    var text := s.newSubCategoryText;
    var (form, text) :=
      if f == CategoryField && v != SNACKS then
        (form.(fields := form.fields.Set(SubCategoryField, ""), hasNewSubCategoryKey := true), "")
      else (form, text);
    var text := if f == SubCategoryField && v != NEW_SUBCATEGORY then "" else text;
    Inputs(form, text)
  }

  /**
   * The subcategory `handleSubmit` sends: the typed text for the "new" entry, else the
   * selection; the "new" entry's own value is never sent unless it was typed.
   */
  function SubmittedSubCategory(s: Inputs): (r: string)
    ensures r == s.form.fields.subCategory || r == s.newSubCategoryText
    ensures r == NEW_SUBCATEGORY ==> s.newSubCategoryText == NEW_SUBCATEGORY
  {
    if s.form.fields.subCategory == NEW_SUBCATEGORY then s.newSubCategoryText else s.form.fields.subCategory
  }

  /**
   * What is picked is what is sent: an existing subcategory is sent as chosen; the
   * "new" entry sends whatever is then typed; leaving Snacks sends no subcategory.
   */
  lemma PickedSubCategoryIsSent(s: Inputs, v: string, typed: string)
    ensures v != NEW_SUBCATEGORY ==> SubmittedSubCategory(Changed(s, SubCategoryField, v)) == v
    ensures SubmittedSubCategory(Changed(s, SubCategoryField, NEW_SUBCATEGORY).(newSubCategoryText := typed)) == typed
    ensures v != SNACKS ==> SubmittedSubCategory(Changed(s, CategoryField, v)) == ""
  {
  }

  /** Making the same change twice is the same as making it once. */
  lemma ChangedIdempotent(s: Inputs, f: FormField, v: string)
    ensures Changed(Changed(s, f, v), f, v) == Changed(s, f, v)
  {
    var once := Changed(s, f, v);
    var twice := Changed(once, f, v);
    assert twice.form.fields.name == once.form.fields.name;
    assert twice.form.fields.price == once.form.fields.price;
    assert twice.form.fields.category == once.form.fields.category;
    assert twice.form.fields.stock == once.form.fields.stock;
    assert twice.form.fields.subCategory == once.form.fields.subCategory;
  }

  /** The form `initialData` fills in: its id, fields, and the price as decimal text. */
  function FormOf(initial: InitialData): FormData {
    FormData(Some(initial.id),
      FormFields(initial.name, IntToString(initial.price), initial.category, initial.stock, initial.subCategory),
      false)
  }

  /**
   * Loading `initialData` shows it: the same id, name, category, stock and subcategory,
   * and a price text that denotes the price when it is not negative; the key
   * `newSubCategory` is gone, since the whole object is replaced.
   */
  lemma FormOfShowsInitialData(initial: InitialData)
    ensures FormOf(initial).HasId() <==> initial.id != ""
    ensures FormOf(initial).fields.name == initial.name && FormOf(initial).fields.category == initial.category
    ensures FormOf(initial).fields.stock == initial.stock && FormOf(initial).fields.subCategory == initial.subCategory
    ensures initial.price >= 0 ==> DecimalValue(FormOf(initial).fields.price) == initial.price
    ensures !FormOf(initial).hasNewSubCategoryKey
  {
    IntToStringValue(initial.price);
  }

  /** The keys of the JSON body `handleSubmit` sends. */
  function SubmittedKeys(form: FormData): set<string> {
    {"name", "price", "category", "stock", "subCategory"}
    + (if form.HasId() then {"id"} else {})
    + (if form.hasNewSubCategoryKey then {"newSubCategory"} else {})
  }

  /** The form component's state. */
  class MenuItemForm {
    const viteApiUrl: string
    var form: FormData
    var newSubCategoryText: string
    var addModalVisible: bool

    constructor (viteApiUrl: string)
      ensures this.viteApiUrl == viteApiUrl
      ensures form == INITIAL_FORM && newSubCategoryText == "" && !addModalVisible
    {
      this.viteApiUrl := viteApiUrl;
      form := INITIAL_FORM;
      newSubCategoryText := "";
      addModalVisible := false;
    }

    /** The `useEffect` on `initialData`: when given, it replaces the whole form. */
    method LoadInitialData(initial: Option<InitialData>)
      modifies this`form
      ensures form == if initial.Some? then FormOf(initial.value) else old(form)
    {
      if initial.Some? {
        form := FormOf(initial.value);
      }
    }

    /** `handleChange` on one of the form's inputs. */
    method HandleChange(field: FormField, value: string)
      modifies this`form, this`newSubCategoryText
      ensures Inputs(form, newSubCategoryText) == Changed(Inputs(old(form), old(newSubCategoryText)), field, value)
    {
      form := form.(fields := form.fields.Set(field, value));
      if field == CategoryField && value != SNACKS {
        form := form.(fields := form.fields.Set(SubCategoryField, ""), hasNewSubCategoryKey := true);
        newSubCategoryText := "";
      }
      if field == SubCategoryField && value != NEW_SUBCATEGORY {
        newSubCategoryText := "";
      }
    }

    /** Typing in the "new subcategory" text input. */
    method SetNewSubCategoryText(text: string)
      modifies this`newSubCategoryText
      ensures newSubCategoryText == text
    {
      newSubCategoryText := text;
    }

    /**
     * `handleSubmit`: a JSON copy of the form with the price parsed and the subcategory
     * resolved, without the id when it is falsy; it is PUT to the item when the id is
     * truthy and POSTed otherwise.
     */
    method HandleSubmit() returns (request: Request)
      ensures request.verb == (if form.HasId() then Put else Post)
      ensures request.url == ApiBase(viteApiUrl) + (if form.HasId() then "/menu/" + form.id.value else "/menu")
      ensures request.body.JsonObject?
      ensures var body := request.body.fields;
        && body.Keys == SubmittedKeys(form)
        && body["name"] == Str(form.fields.name)
        && body["price"] == ParsedNumber(form.fields.price)
        && body["category"] == Str(form.fields.category)
        && body["stock"] == Str(form.fields.stock)
        && body["subCategory"] == Str(SubmittedSubCategory(Inputs(form, newSubCategoryText)))
        && (form.HasId() ==> body["id"] == Str(form.id.value))
        && (form.hasNewSubCategoryKey ==> body["newSubCategory"] == Str(""))
    {
      var itemData: map<string, Json> := map[];
      if form.id.Some? {
        itemData := itemData["id" := Str(form.id.value)];
      }
      itemData := itemData["name" := Str(form.fields.name)];
      itemData := itemData["price" := Str(form.fields.price)];
      itemData := itemData["category" := Str(form.fields.category)];
      itemData := itemData["stock" := Str(form.fields.stock)];
      itemData := itemData["subCategory" := Str(form.fields.subCategory)];
      if form.hasNewSubCategoryKey {
        itemData := itemData["newSubCategory" := Str("")];
      }
      itemData := itemData["price" := ParsedNumber(form.fields.price)];
      if form.fields.subCategory == NEW_SUBCATEGORY {
        itemData := itemData["subCategory" := Str(newSubCategoryText)];
      }
      if !form.HasId() {
        itemData := itemData - {"id"};
      }
      var body := JsonObject(itemData);
      if "id" in itemData {
        request := Request(Put, ApiBase(viteApiUrl) + "/menu/" + form.id.value, body);
      } else {
        request := Request(Post, ApiBase(viteApiUrl) + "/menu", body);
      }
    }

    /**
     * `handleSaveNewSubCategory`, given what the add dialog passed on: the name and image
     * are posted; once created, the parent is told, the new subcategory's name becomes the
     * selection and the dialog closes; a failure changes nothing.
     */
    method SaveNewSubCategory(name: string, file: ImageFile, createdName: Option<string>)
      returns (request: Request, parentNotified: bool)
      modifies this`form, this`addModalVisible
      ensures request.verb == Post && request.url == ApiBase(viteApiUrl) + "/admin/subcategories"
      ensures request.body.Multipart?
      ensures FormGet(request.body.entries, "name") == Some(TextPart(name))
      ensures FormGet(request.body.entries, "image") == Some(FilePart(file))
      ensures parentNotified <==> createdName.Some?
      ensures createdName.Some? ==>
        form == old(form).(fields := old(form).fields.Set(SubCategoryField, createdName.value)) && !addModalVisible
      ensures createdName.None? ==> form == old(form) && addModalVisible == old(addModalVisible)
    {
      var body: seq<Entry> := [];
      body := Append(body, Entry("name", TextPart(name)));
      body := Append(body, Entry("image", FilePart(file)));
      request := Request(Post, ApiBase(viteApiUrl) + "/admin/subcategories", Multipart(body));
      parentNotified := createdName.Some?;
      if createdName.Some? {
        form := form.(fields := form.fields.Set(SubCategoryField, createdName.value));
        addModalVisible := false;
      }
    }
  }
}
