/**
 * Menu items as the backend returns them to the dashboard: the subcategory is
 * populated into an object, or absent.
 */
module Menu {
  import opened Optional

  /** A populated subcategory reference (`item.subCategory`). */
  datatype SubCategory = SubCategory(id: string, name: string, imageUrl: string)

  /** A menu item; absent string fields are "" (a missing name, on which the dashboard throws, included). */
  datatype MenuItem = MenuItem(
    id: string,
    name: string,
    category: string,
    subCategory: Option<SubCategory>,
    price: int,
    stock: int,
    imageUrl: string)

  /** A file chosen in a browser file picker; only its identity matters here. */
  datatype ImageFile = ImageFile(fileName: string)

  /** The text inputs and selects of the menu item forms, by their `name` attribute. */
  datatype FormField = NameField | PriceField | CategoryField | StockField | SubCategoryField

  /** The values of a menu item form's inputs, all held as text. */
  datatype FormFields = FormFields(name: string, price: string, category: string, stock: string, subCategory: string)
  {
    /** `formData[field]` */
    function Get(f: FormField): string {
      match f
      case NameField => name
      case PriceField => price
      case CategoryField => category
      case StockField => stock
      case SubCategoryField => subCategory
    }

    /** `{ ...prev, [field]: value }`: the field takes the value, every other field is kept. */
    function Set(f: FormField, v: string): (r: FormFields)
      ensures r.Get(f) == v
      ensures forall g :: g != f ==> r.Get(g) == Get(g)
    {
      match f
      case NameField => this.(name := v)
      case PriceField => this.(price := v)
      case CategoryField => this.(category := v)
      case StockField => this.(stock := v)
      case SubCategoryField => this.(subCategory := v)
    }
  }
}
