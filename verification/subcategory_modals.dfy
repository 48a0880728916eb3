/**
 * The two subcategory dialogs of the menu item forms: "Add New Subcategory" (the same
 * component appears in src/pages/AdminMenuFormPage.jsx and
 * src/components/AdminMenuItemForm.jsx) and "Edit Subcategory" (AdminMenuFormPage only).
 * Each one either raises an alert or hands its input to the `onSave` callback.
 */
module SubCategoryModals {
  import opened Optional
  import opened Text
  import opened Menu

  const ADD_ALERT := "Please provide a subcategory name and an image."
  const EDIT_ALERT := "Please provide a subcategory name."

  /** What the add dialog's Save button does. */
  datatype AddOutcome = AddAlert(message: string) | AddSave(name: string, file: ImageFile)

  /** `handleSubmit` of the add dialog: both a name and an image are needed. */
  function AddSubmit(name: string, file: Option<ImageFile>): (r: AddOutcome)
    ensures r.AddSave? <==> name != "" && file.Some?
    ensures r.AddSave? ==> r.name == name && Some(r.file) == file
    ensures r.AddAlert? ==> r.message == ADD_ALERT
  {
    if name == "" || file.None? then AddAlert(ADD_ALERT) else AddSave(name, file.value)
  }

  /** What the edit dialog's Save button does. */
  datatype EditOutcome = EditAlert(message: string) | EditSave(id: string, name: string) | EditNothing

  /**
   * `handleSubmit` of the edit dialog: a name of whitespace only raises the alert;
   * otherwise the trimmed name is saved for the subcategory being edited, if any.
   */
  function EditSubmit(name: string, subCategory: Option<SubCategory>): (r: EditOutcome)
    ensures r.EditAlert? <==> Trim(name) == ""
    ensures r.EditAlert? ==> r.message == EDIT_ALERT
    ensures r.EditNothing? <==> Trim(name) != "" && subCategory.None?
    ensures r.EditSave? ==> subCategory.Some? && r.id == subCategory.value.id && r.name == Trim(name)
  {
    if Trim(name) == "" then EditAlert(EDIT_ALERT)
    else if subCategory.Some? then EditSave(subCategory.value.id, Trim(name))
    else EditNothing
  }

  /**
   * The edit dialog saves exactly when the name has a character that is not
   * whitespace and a subcategory is being edited; the saved name is the input with
   * its leading and trailing whitespace cut off, so it is a non-empty slice of the
   * input that neither starts nor ends with whitespace.
   */
  lemma EditSubmitSaves(name: string, subCategory: Option<SubCategory>)
    ensures EditSubmit(name, subCategory).EditSave? <==>
      subCategory.Some? && exists i :: 0 <= i < |name| && !IsWhitespace(name[i])
    ensures match EditSubmit(name, subCategory)
      case EditSave(_, saved) =>
        && saved != ""
        && OccursAt(name, saved, LeadingWhitespace(name))
        && !IsWhitespace(saved[0]) && !IsWhitespace(saved[|saved| - 1])
      case _ => true
  {
    TrimEmptyIff(name);
    TrimSpec(name);
  }
}
