/**
 * The add/edit menu item page (src/pages/AdminMenuFormPage.jsx): a form over the item's
 * fields, a subcategory picker shown for Snacks with add, edit and delete actions, and a
 * multipart submission that creates (POST) or updates (PUT) the item.
 */
module AdminMenuFormPage {
  import opened Optional
  import opened Text
  import opened Sorting
  import opened Menu
  import ImageUrl
  import opened Http

  const FALLBACK_BASE := "http://localhost:10000/api"
  const FALLBACK_ROOT := "http://localhost:10000"
  const SNACKS := "Snacks"

  const NO_IMAGE_ALERT := "Please upload an image for the new item."
  const NO_SUBCATEGORY_ALERT := "Please select or add a subcategory for Snacks."
  const SELECT_TO_EDIT_ALERT := "Please select a subcategory to edit."
  const SELECT_TO_DELETE_ALERT := "Please select a subcategory to delete."
  const SUBCATEGORIES_ERROR := "Failed to load subcategories."
  const NOT_FOUND_ERROR := "Item not found."
  const SESSION_ERROR := "Session expired. Please log in again."
  const LOAD_ERROR := "Failed to load item data."

  /** `API_BASE_URL`: the configured API URL, or the local default. */
  function ApiBase(viteApiUrl: string): (r: string)
    ensures r != ""
    ensures viteApiUrl != "" ==> r == viteApiUrl
  {
    if viteApiUrl != "" then viteApiUrl else FALLBACK_BASE
  }

  /**
   * `API_ROOT_URL` for a given `VITE_API_URL` ("" when unset): the fallback when
   * unset, otherwise the variable with its first "/api" cut out; a set value is
   * used unchanged exactly when it contains no "/api".
   */
  function ApiRoot(viteApiUrl: string): (r: string)
    ensures viteApiUrl == "" ==> r == FALLBACK_ROOT
    ensures viteApiUrl != "" ==> (r == viteApiUrl <==> !Includes(viteApiUrl, ImageUrl.API_SUFFIX))
  {
    ImageUrl.ApiRootUrlUnchangedIff(viteApiUrl, FALLBACK_ROOT);
    ImageUrl.ApiRootUrl(viteApiUrl, FALLBACK_ROOT)
  }

  /**
   * This page's `getFullImageUrl`: "" exactly for an absent path, an absolute path as
   * it is, and every other `/`-prefixed path appended to the root as host-relative.
   */
  function ItemImageUrl(viteApiUrl: string, path: string): (r: string)
    ensures r == "" <==> path == ""
    ensures StartsWith(path, "http") ==> r == path
    ensures StartsWith(path, "/") && !StartsWith(path, "http") ==> r == ApiRoot(viteApiUrl) + path
  {
    ImageUrl.FullImageUrlSlash(ApiRoot(viteApiUrl), path)
  }

  /**
   * A stored upload resolves to the same URL whether the backend kept it as a bare
   * file name or as "/uploads/<name>": the root, "/uploads/", and the name. Any other
   * `/`-prefixed path is appended to the root as it is.
   */
  lemma StoredUploadFormsAgree(viteApiUrl: string, fileName: string, path: string)
    requires fileName != "" && !StartsWith(fileName, "http") && !StartsWith(fileName, "/")
    ensures ItemImageUrl(viteApiUrl, ImageUrl.UPLOADS + fileName) == ItemImageUrl(viteApiUrl, fileName)
    ensures ItemImageUrl(viteApiUrl, fileName) == ApiRoot(viteApiUrl) + "/uploads/" + fileName
    ensures StartsWith(path, "/") ==> ItemImageUrl(viteApiUrl, path) == ApiRoot(viteApiUrl) + path
    ensures viteApiUrl == "" ==> ApiRoot(viteApiUrl) == FALLBACK_ROOT && ApiBase(viteApiUrl) == FALLBACK_ROOT + "/api"
  {
    var u := ImageUrl.UPLOADS + fileName;
    assert u[..1] == "/";
    assert !StartsWith(u, "http") by { assert u[0] != 'h'; }
    if StartsWith(path, "/") {
      assert !StartsWith(path, "http") by { assert path[0] != 'h'; }
    }
  }

  /**
   * `handleChange`: the named field takes the value; choosing a category other than
   * Snacks also clears the subcategory; nothing else changes.
   */
  function Changed(fd: FormFields, f: FormField, v: string): (r: FormFields)
    ensures r.Get(f) == v
    ensures f == CategoryField && v != SNACKS ==> r.subCategory == ""
    ensures forall g :: g != f && !(f == CategoryField && v != SNACKS && g == SubCategoryField) ==> r.Get(g) == fd.Get(g)
  {
    var r := fd.Set(f, v);
    if f == CategoryField && v != SNACKS then r.Set(SubCategoryField, "") else r
  }

  /** Making the same change twice is the same as making it once. */
  lemma ChangedIdempotent(fd: FormFields, f: FormField, v: string)
    ensures Changed(Changed(fd, f, v), f, v) == Changed(fd, f, v)
  {
    var once := Changed(fd, f, v);
    var twice := Changed(once, f, v);
    forall g ensures twice.Get(g) == once.Get(g) {
    }
    assert twice.name == once.name && twice.price == once.price && twice.category == once.category;
    assert twice.stock == once.stock && twice.subCategory == once.subCategory;
  }

  /** The form of a new item. */
  const INITIAL_FORM := FormFields("", "", SNACKS, "0", "")

  /** The form loaded for editing: numbers as their decimal text, the subcategory by its id. */
  function FormOf(item: MenuItem): FormFields {
    FormFields(item.name, IntToString(item.price), item.category, IntToString(item.stock),
      if item.subCategory.Some? then item.subCategory.value.id else "")
  }

  /**
   * The loaded form shows the item: its name and category, the decimal text of its
   * price and stock (which denotes them when they are not negative), and the id of
   * its subcategory, or nothing selected when it has none.
   */
  lemma FormOfShowsItem(item: MenuItem)
    ensures FormOf(item).name == item.name && FormOf(item).category == item.category
    ensures item.price >= 0 ==> DecimalValue(FormOf(item).price) == item.price
    ensures item.stock >= 0 ==> DecimalValue(FormOf(item).stock) == item.stock
    ensures FormOf(item).subCategory == "" <==> item.subCategory.None? || item.subCategory.value.id == ""
  {
    IntToStringValue(item.price);
    IntToStringValue(item.stock);
  }

  /**
   * The checks `handleSubmit` makes before sending: a new item needs an image, and a
   * Snacks item needs a subcategory. `None` means the submission goes ahead.
   */
  function SubmitCheck(fd: FormFields, editMode: bool, hasImage: bool): (r: Option<string>)
    ensures r.None? <==> (editMode || hasImage) && (fd.category != SNACKS || fd.subCategory != "")
    ensures r == Some(NO_IMAGE_ALERT) <==> !editMode && !hasImage
  {
    if !editMode && !hasImage then Some(NO_IMAGE_ALERT)
    else if fd.category == SNACKS && fd.subCategory == "" then Some(NO_SUBCATEGORY_ALERT)
    else None
  }

  /** After switching to a category other than Snacks the subcategory check never fires. */
  lemma LeavingSnacksPassesSubcategoryCheck(fd: FormFields, v: string, editMode: bool, hasImage: bool)
    requires v != SNACKS
    ensures SubmitCheck(Changed(fd, CategoryField, v), editMode, hasImage) != Some(NO_SUBCATEGORY_ALERT)
    ensures editMode || hasImage ==> SubmitCheck(Changed(fd, CategoryField, v), editMode, hasImage).None?
  {
  }

  /** What pressing the submit button does: an alert, or the request that is sent. */
  datatype Submission = Rejected(alert: string) | Sent(request: Request)

  /** The body of `GET /subcategories` (or its failure). */
  datatype SubCategoriesResponse = ArrayBody(data: array<SubCategory>) | OtherBody | RequestFailed

  /** The array a response holds, if any: the only thing fetching may change besides the page. */
  function ResponseArray(response: SubCategoriesResponse): set<array<SubCategory>> {
    if response.ArrayBody? then {response.data} else {}
  }

  /** The outcome of `GET /admin/menu/:id`. */
  datatype ItemResponse = ItemFound(item: MenuItem) | ItemMissing | ItemUnauthorized | ItemFailed

  const SubCategoryName: SubCategory -> string := (s: SubCategory) => s.name

  /** `subCategories.find(sub => sub._id === id)` */
  function FindById(subs: seq<SubCategory>, id: string): (r: Option<SubCategory>)
    ensures r.Some? ==> r.value in subs && r.value.id == id
    ensures r.None? <==> forall i :: 0 <= i < |subs| ==> subs[i].id != id
  {
    if subs == [] then None
    else if subs[0].id == id then Some(subs[0])
    else FindById(subs[1..], id)
  }

  /** `find` returns the first subcategory with the id. */
  lemma {:induction false} FindByIdFirst(subs: seq<SubCategory>, id: string, i: nat)
    requires i < |subs| && subs[i].id == id
    requires forall j :: 0 <= j < i ==> subs[j].id != id
    ensures FindById(subs, id) == Some(subs[i])
  {
    if i > 0 {
      FindByIdFirst(subs[1..], id, i - 1);
    }
  }

  /**
   * The error the page shows after loading: none exactly when neither request failed,
   * and an item error overrides a subcategory error.
   */
  function LoadError(subCategoriesResponse: SubCategoriesResponse, editMode: bool, itemResponse: ItemResponse): (r: Option<string>)
    ensures r.None? <==> (!editMode || itemResponse.ItemFound?) && !subCategoriesResponse.RequestFailed?
    ensures editMode && !itemResponse.ItemFound? ==> r.Some? && r.value != SUBCATEGORIES_ERROR
  {
    if editMode && !itemResponse.ItemFound? then
      Some(match itemResponse
        case ItemMissing => NOT_FOUND_ERROR
        case ItemUnauthorized => SESSION_ERROR
        case _ => LOAD_ERROR)
    else if subCategoriesResponse.RequestFailed? then Some(SUBCATEGORIES_ERROR)
    else None
  }

  /**
   * What the item's multipart body holds: the name, price, category and stock, the
   * subcategory when one is selected and the image when one was chosen, and nothing else.
   */
  predicate ItemBody(body: seq<Entry>, fd: FormFields, file: Option<ImageFile>) {
    && FormGet(body, "name") == Some(TextPart(fd.name))
    && FormGet(body, "price") == Some(TextPart(fd.price))
    && FormGet(body, "category") == Some(TextPart(fd.category))
    && FormGet(body, "stock") == Some(TextPart(fd.stock))
    && FormGet(body, "subCategory") == (if fd.subCategory != "" then Some(TextPart(fd.subCategory)) else None)
    && FormGet(body, "image") == (if file.Some? then Some(FilePart(file.value)) else None)
    && |body| == 4 + (if fd.subCategory != "" then 1 else 0) + (if file.Some? then 1 else 0)
  }

  /** The four fields every item body carries, appended in order. */
  method AppendRequiredFields(fd: FormFields) returns (body: seq<Entry>)
    ensures FormGet(body, "name") == Some(TextPart(fd.name))
    ensures FormGet(body, "price") == Some(TextPart(fd.price))
    ensures FormGet(body, "category") == Some(TextPart(fd.category))
    ensures FormGet(body, "stock") == Some(TextPart(fd.stock))
    ensures FormGet(body, "subCategory") == None && FormGet(body, "image") == None
    ensures |body| == 4
  {
    body := [];
    body := Append(body, Entry("name", TextPart(fd.name)));
    body := Append(body, Entry("price", TextPart(fd.price)));
    body := Append(body, Entry("category", TextPart(fd.category)));
    body := Append(body, Entry("stock", TextPart(fd.stock)));
  }

  /** The `itemFormData` of `handleSubmit`, appended field by field. */
  method BuildItemBody(fd: FormFields, file: Option<ImageFile>) returns (body: seq<Entry>)
    ensures ItemBody(body, fd, file)
  {
    body := AppendRequiredFields(fd);
    if fd.subCategory != "" {
      body := Append(body, Entry("subCategory", TextPart(fd.subCategory)));
    }
    if file.Some? {
      body := Append(body, Entry("image", FilePart(file.value)));
    }
  }

  /** The page's state. `routeId` is the `:id` route parameter, "" on the add route. */
  class MenuFormPage {
    const routeId: string
    const viteApiUrl: string
    var formData: FormFields
    var subCategories: seq<SubCategory>
    var itemImageFile: Option<ImageFile>
    var existingImageUrl: string
    var addModalVisible: bool
    var editModalVisible: bool
    var selectedForEdit: Option<SubCategory>
    var loading: bool
    var error: Option<string>

    constructor (routeId: string, viteApiUrl: string)
      ensures this.routeId == routeId && this.viteApiUrl == viteApiUrl
      ensures formData == INITIAL_FORM && subCategories == [] && itemImageFile == None
      ensures existingImageUrl == "" && !addModalVisible && !editModalVisible && selectedForEdit == None
      ensures loading && error == None
    {
      this.routeId := routeId;
      this.viteApiUrl := viteApiUrl;
      formData := INITIAL_FORM;
      subCategories := [];
      itemImageFile := None;
      existingImageUrl := "";
      addModalVisible := false;
      editModalVisible := false;
      selectedForEdit := None;
      loading := true;
      error := None;
    }

    /** `isEditMode` */
    predicate IsEditMode() {
      routeId != ""
    }

    /**
     * `fetchSubCategories`: an array body is sorted by name in place and becomes the
     * list; any other body empties the list; a failed request also sets the error.
     */
    method FetchSubCategories(response: SubCategoriesResponse)
      modifies this`subCategories, this`error, ResponseArray(response)
      ensures response.ArrayBody? ==>
        && response.data[..] == SortBy(old(response.data[..]), SubCategoryName)
        && subCategories == response.data[..]
        && SortedBy(subCategories, SubCategoryName)
        && multiset(subCategories) == multiset(old(response.data[..]))
      ensures !response.ArrayBody? ==> subCategories == []
      ensures error == if response.RequestFailed? then Some(SUBCATEGORIES_ERROR) else old(error)
    {
      match response
      case ArrayBody(data) =>
        SortInPlace(data, SubCategoryName);
        SortBySpec(old(data[..]), SubCategoryName);
        subCategories := data[..];
      case OtherBody =>
        subCategories := [];
      case RequestFailed =>
        error := Some(SUBCATEGORIES_ERROR);
        subCategories := [];
    }

    /**
     * `fetchPageData`: without a token nothing is loaded and the spinner stays; otherwise
     * the subcategories are fetched and, on the edit route, the item fills the form and
     * its image URL is resolved.
     */
    method LoadPage(hasToken: bool, subCategoriesResponse: SubCategoriesResponse, itemResponse: ItemResponse)
      modifies this`loading, this`error, this`subCategories, this`formData, this`existingImageUrl
      modifies ResponseArray(subCategoriesResponse)
      ensures !hasToken ==> loading && error == None && subCategories == old(subCategories)
      ensures hasToken ==> !loading && error == LoadError(subCategoriesResponse, IsEditMode(), itemResponse)
      ensures hasToken && subCategoriesResponse.ArrayBody? ==>
        subCategories == SortBy(old(subCategoriesResponse.data[..]), SubCategoryName)
      ensures hasToken && !subCategoriesResponse.ArrayBody? ==> subCategories == []
      ensures if hasToken && IsEditMode() && itemResponse.ItemFound? then
          formData == FormOf(itemResponse.item) && existingImageUrl == ItemImageUrl(viteApiUrl, itemResponse.item.imageUrl)
        else
          formData == old(formData) && existingImageUrl == old(existingImageUrl)
    {
      loading := true;
      error := None;
      if !hasToken {
        return;
      }
      FetchSubCategories(subCategoriesResponse);
      if IsEditMode() {
        match itemResponse
        case ItemFound(item) =>
          formData := FormOf(item);
          existingImageUrl := ItemImageUrl(viteApiUrl, item.imageUrl);
        case ItemMissing =>
          error := Some(NOT_FOUND_ERROR);
        case ItemUnauthorized =>
          error := Some(SESSION_ERROR);
        case ItemFailed =>
          error := Some(LOAD_ERROR);
      }
      loading := false;
    }

    /** `handleChange` on one of the form's inputs. */
    method HandleChange(field: FormField, value: string)
      modifies this`formData
      ensures formData == Changed(old(formData), field, value)
    {
      formData := formData.Set(field, value);
      if field == CategoryField && value != SNACKS {
        formData := formData.Set(SubCategoryField, "");
      }
    }

    /** `handleItemImageChange`: a chosen file replaces the current one; cancelling keeps it. */
    method ChooseItemImage(file: Option<ImageFile>)
      modifies this`itemImageFile
      ensures itemImageFile == if file.Some? then file else old(itemImageFile)
    {
      if file.Some? {
        itemImageFile := file;
      }
    }

    /**
     * `handleSubmit`: after the two checks, the item's multipart body is sent with PUT
     * to the item on the edit route and with POST otherwise.
     */
    method HandleSubmit() returns (r: Submission)
      ensures SubmitCheck(formData, IsEditMode(), itemImageFile.Some?).Some? ==>
        r == Rejected(SubmitCheck(formData, IsEditMode(), itemImageFile.Some?).value)
      ensures SubmitCheck(formData, IsEditMode(), itemImageFile.Some?).None? ==>
        && r.Sent?
        && r.request.verb == (if IsEditMode() then Put else Post)
        && r.request.url == ApiBase(viteApiUrl) + (if IsEditMode() then "/menu/" + routeId else "/menu")
        && r.request.body.Multipart?
        && ItemBody(r.request.body.entries, formData, itemImageFile)
    {
      var check := SubmitCheck(formData, IsEditMode(), itemImageFile.Some?);
      if check.Some? {
        return Rejected(check.value);
      }
      var body := BuildItemBody(formData, itemImageFile);
      if IsEditMode() {
        r := Sent(Request(Put, ApiBase(viteApiUrl) + "/menu/" + routeId, Multipart(body)));
      } else {
        r := Sent(Request(Post, ApiBase(viteApiUrl) + "/menu", Multipart(body)));
      }
    }

    /**
     * `handleSaveNewSubCategory`, given what the add dialog passed on: the name and image
     * are posted; once the subcategory is created the list is fetched again, the new
     * subcategory becomes the selection and the dialog closes; a failure changes nothing.
     */
    method SaveNewSubCategory(name: string, file: ImageFile, createdId: Option<string>, refetched: SubCategoriesResponse)
      returns (request: Request)
      modifies this`subCategories, this`error, this`formData, this`addModalVisible, ResponseArray(refetched)
      ensures request.verb == Post && request.url == ApiBase(viteApiUrl) + "/admin/subcategories"
      ensures request.body.Multipart?
      ensures FormGet(request.body.entries, "name") == Some(TextPart(name))
      ensures FormGet(request.body.entries, "image") == Some(FilePart(file))
      ensures createdId.Some? ==>
        && formData == old(formData).Set(SubCategoryField, createdId.value)
        && !addModalVisible
        && (refetched.ArrayBody? ==> subCategories == SortBy(old(refetched.data[..]), SubCategoryName))
        && (!refetched.ArrayBody? ==> subCategories == [])
      ensures createdId.None? ==>
        formData == old(formData) && subCategories == old(subCategories) && addModalVisible == old(addModalVisible)
      ensures error == if createdId.Some? && refetched.RequestFailed? then Some(SUBCATEGORIES_ERROR) else old(error)
    {
      var body: seq<Entry> := [];
      body := Append(body, Entry("name", TextPart(name)));
      body := Append(body, Entry("image", FilePart(file)));
      request := Request(Post, ApiBase(viteApiUrl) + "/admin/subcategories", Multipart(body));
      if createdId.Some? {
        FetchSubCategories(refetched);
        formData := formData.Set(SubCategoryField, createdId.value);
        addModalVisible := false;
      }
    }

    /**
     * `handleOpenEditSubCategoryModal`: the selected subcategory is looked up in the
     * list; when found it is handed to the edit dialog, which opens; otherwise an alert.
     */
    method OpenEditSubCategoryModal() returns (alert: Option<string>)
      modifies this`selectedForEdit, this`editModalVisible
      ensures FindById(subCategories, formData.subCategory).Some? ==>
        && alert == None
        && selectedForEdit == FindById(subCategories, formData.subCategory)
        && selectedForEdit.value in subCategories && selectedForEdit.value.id == formData.subCategory
        && editModalVisible
      ensures FindById(subCategories, formData.subCategory).None? ==>
        && alert == Some(SELECT_TO_EDIT_ALERT)
        && selectedForEdit == old(selectedForEdit) && editModalVisible == old(editModalVisible)
    {
      var selected := FindById(subCategories, formData.subCategory);
      if selected.Some? {
        selectedForEdit := selected;
        editModalVisible := true;
        alert := None;
      } else {
        alert := Some(SELECT_TO_EDIT_ALERT);
      }
    }

    /**
     * `handleSaveEditedSubCategory`, given what the edit dialog passed on: the new name is
     * sent for the subcategory; on success the list is fetched again and the dialog
     * closes, and the selection (an id) still names the renamed subcategory.
     */
    method SaveEditedSubCategory(subId: string, newName: string, saved: bool, refetched: SubCategoriesResponse)
      returns (request: Request)
      modifies this`subCategories, this`error, this`editModalVisible, ResponseArray(refetched)
      ensures request.verb == Put && request.url == ApiBase(viteApiUrl) + "/admin/subcategories/" + subId
      ensures request.body == JsonObject(map["name" := Str(newName)])
      ensures saved ==>
        && !editModalVisible
        && (refetched.ArrayBody? ==> subCategories == SortBy(old(refetched.data[..]), SubCategoryName))
        && (!refetched.ArrayBody? ==> subCategories == [])
      ensures !saved ==> subCategories == old(subCategories) && editModalVisible == old(editModalVisible)
      ensures error == if saved && refetched.RequestFailed? then Some(SUBCATEGORIES_ERROR) else old(error)
    {
      request := Request(Put, ApiBase(viteApiUrl) + "/admin/subcategories/" + subId, JsonObject(map["name" := Str(newName)]));
      if saved {
        FetchSubCategories(refetched);
        editModalVisible := false;
      }
    }

    /**
     * `handleDeleteSubCategory`: without a selected subcategory in the list an alert;
     * once confirmed the subcategory is deleted; on success the list is fetched again
     * and the selection is cleared.
     */
    method DeleteSubCategory(confirmed: bool, deleted: bool, refetched: SubCategoriesResponse)
      returns (alert: Option<string>, request: Option<Request>)
      modifies this`subCategories, this`error, this`formData, ResponseArray(refetched)
      ensures var found := FindById(old(subCategories), old(formData.subCategory));
        && (alert.Some? <==> found.None?)
        && (alert.Some? ==> alert.value == SELECT_TO_DELETE_ALERT)
        && (request.Some? <==> found.Some? && confirmed)
        && (request.Some? ==> request.value == Request(Delete, ApiBase(viteApiUrl) + "/admin/subcategories/" + found.value.id, NoBody))
      ensures request.Some? && deleted ==>
        && formData == old(formData).Set(SubCategoryField, "")
        && (refetched.ArrayBody? ==> subCategories == SortBy(old(refetched.data[..]), SubCategoryName))
        && (!refetched.ArrayBody? ==> subCategories == [])
      ensures !(request.Some? && deleted) ==> formData == old(formData) && subCategories == old(subCategories)
      ensures error == if request.Some? && deleted && refetched.RequestFailed? then Some(SUBCATEGORIES_ERROR) else old(error)
    {
      var found := FindById(subCategories, formData.subCategory);
      if found.None? {
        return Some(SELECT_TO_DELETE_ALERT), None;
      }
      alert := None;
      if !confirmed {
        return alert, None;
      }
      request := Some(Request(Delete, ApiBase(viteApiUrl) + "/admin/subcategories/" + formData.subCategory, NoBody));
      if deleted {
        FetchSubCategories(refetched);
        formData := formData.Set(SubCategoryField, "");
      }
    }
  }
}
