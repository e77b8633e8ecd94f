/** The seller's shop registration dialog: the shop row it builds and the insert it makes. */
module ShopRegistration {
  import opened Common
  import opened Text
  import opened Tables
  import Slug
  import AddProductForm

  /** The filled-in form fields, as strings. */
  datatype ShopForm = ShopForm(
    name: string, description: string, phone: string, email: string, addressLine1: string,
    addressLine2: string, city: string, state: string, postalCode: string, businessType: string,
    gstNumber: string)

  /** `shopData`: the form's fields under the signed-in seller, with the slug derived from the name. */
  function ShopData(userId: string, form: ShopForm): (row: ShopRow)
    ensures row.sellerId == userId
    ensures row.slug == Slug.Slugify(form.name)
    ensures row.name == form.name && row.description == form.description && row.phone == form.phone
    ensures row.email == form.email && row.addressLine1 == form.addressLine1 && row.addressLine2 == form.addressLine2
    ensures row.city == form.city && row.state == form.state && row.postalCode == form.postalCode
    ensures row.businessType == form.businessType && row.gstNumber == form.gstNumber
  {
    ShopRow(
      userId, form.name, Slug.Slugify(form.name), form.description, form.phone, form.email,
      form.addressLine1, form.addressLine2, form.city, form.state, form.postalCode, form.businessType,
      form.gstNumber)
  }

  /** The shop slug has no whitespace and no upper-case letter, and deriving it again changes nothing. */
  lemma ShopSlugIsClean(userId: string, form: ShopForm)
    ensures NoSpace(ShopData(userId, form).slug) && NoUpper(ShopData(userId, form).slug)
    ensures Slug.Slugify(ShopData(userId, form).slug) == ShopData(userId, form).slug
  {
    Slug.SlugIsClean(form.name);
    Slug.SlugIdempotent(form.name);
  }

  /** A shop and a product with the same name get the same slug. */
  lemma ShopSlugMatchesProductSlug(
    userId: string, form: ShopForm, shopId: nat, product: AddProductForm.ProductForm,
    sizes: seq<string>, colors: seq<string>)
    requires product.name == form.name
    ensures AddProductForm.ProductData(shopId, product, sizes, colors)["slug"] == JString(ShopData(userId, form).slug)
  {
  }

  /** The dialog's state. */
  class ShopRegistrationDialog {
    const userId: string
    var error: string
    var loading: bool
    var closed: bool
    var refreshes: nat

    constructor (userId: string)
      ensures this.userId == userId && error == "" && !loading && !closed && refreshes == 0
    {
      this.userId := userId;
      error, loading, closed, refreshes := "", false, false, 0;
    }

    /**
     * `handleSubmit`: insert the shop row; on success refresh and close, on an error record its
     * message and stay open.
     */
    method Submit(db: Store, form: ShopForm, insert: Outcome)
      requires db.Valid()
      modifies this`error, this`loading, this`closed, this`refreshes, db`shops, db`nextId
      ensures db.Valid() && !loading
      ensures insert.Ok? ==>
        && db.shops == old(db.shops)[old(db.nextId) := ShopData(userId, form)]
        && error == "" && closed && refreshes == old(refreshes) + 1
      ensures insert.Failed? ==>
        && db.shops == old(db.shops) && error == insert.message
        && closed == old(closed) && refreshes == old(refreshes)
    {
      loading := true;
      error := "";
      var shopData := ShopData(userId, form);
      if insert.Failed? {
        error := insert.message;
        loading := false;
        return;
      }
      var id := db.InsertShop(shopData);
      refreshes := refreshes + 1;
      closed := true;
      loading := false;
    }
  }
}
