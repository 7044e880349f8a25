/** The product edit modal (`ProductModal`): its form state, the masked price field, the image
    choice, and what one press of "Salvar Produto" sends to the backend. */
module ProductModalForm {
  import opened Wrappers
  import opened Text
  import opened Decimal
  import opened PriceMask
  import opened Entities

  /** `formData`. */
  datatype ProductForm = ProductForm(nome: string, descricao: string, preco: Price)

  /** The `name` attributes of the form's text inputs. */
  datatype FormField = Nome | Descricao | Preco

  /** The create-mode form: every field empty. */
  const EmptyForm := ProductForm("", "", Blank)

  // ----- Opening the modal -----

  /** The form an edit starts from: name and description with `|| ""`, and the price. */
  function EditForm(p: Product): ProductForm {
    ProductForm(p.nome, OrEmpty(p.descricao), p.preco)
  }

  /** `formData` after the open effect: the product's fields when editing, empty when creating. */
  function InitialForm(productData: Option<Product>): (f: ProductForm)
    ensures productData.None? ==> f == EmptyForm
    ensures productData.Some? ==>
      f.nome == productData.value.nome && f.preco == productData.value.preco &&
      (Truthy(productData.value.descricao) ==> f.descricao == productData.value.descricao.value) &&
      (!Truthy(productData.value.descricao) ==> f.descricao == "")
  {
    match productData
    case None => EmptyForm
    case Some(p) => EditForm(p)
  }

  /** `imagePreview` after the open effect: the product's image (`|| null`), none when creating. */
  function InitialPreview(productData: Option<Product>): (preview: Option<string>)
    ensures preview.Some? ==>
      productData.Some? && Truthy(productData.value.imagem) && preview == productData.value.imagem
    ensures productData.Some? && Truthy(productData.value.imagem) ==> preview.Some?
  {
    match productData
    case None => None
    case Some(p) => OrNull(p.imagem)
  }

  // ----- Editing the fields -----

  /** `handleInputChange`: the named text field takes the new value; the price is left to its
      own handler, and every other field is untouched. */
  function WithInput(f: ProductForm, field: FormField, value: string): (g: ProductForm)
    ensures g.preco == f.preco
    ensures g.nome == (if field == Nome then value else f.nome)
    ensures g.descricao == (if field == Descricao then value else f.descricao)
  {
    match field
    case Nome => f.(nome := value)
    case Descricao => f.(descricao := value)
    case Preco => f
  }

  // ----- Storage paths -----

  /** The object to delete when the image is replaced: `produtos/<uid>/` and the last `/`
      segment of the old public URL. */
  function OldObjectPath(uid: string, imageUrl: string): string {
    "produtos/" + uid + "/" + AfterLast(imageUrl, '/')
  }

  /** Where a new image is uploaded: `produtos/<uid>/<Date.now()>.<ext>`. */
  function NewObjectPath(uid: string, now: nat, fileName: string): string {
    "produtos/" + uid + "/" + ToDecimal(now) + "." + FileExtension(fileName)
  }

  /** The uploaded object keeps the picked file's extension. */
  lemma NewPathKeepsExtension(uid: string, now: nat, fileName: string)
    ensures AfterLast(NewObjectPath(uid, now, fileName), '.') == FileExtension(fileName)
  {
    var ext := FileExtension(fileName);
    assert NewObjectPath(uid, now, fileName) == ("produtos/" + uid + "/" + ToDecimal(now)) + ['.'] + ext;
    AfterLastOfJoin("produtos/" + uid + "/" + ToDecimal(now), '.', ext);
  }

  /** A rendered number holds no '/'. */
  lemma NoSlashInDecimal(n: nat)
    ensures '/' !in ToDecimal(n)
  {
  }

  /** A file name without '/' has an extension without '/'. */
  lemma NoSlashInExtension(fileName: string)
    requires '/' !in fileName
    ensures '/' !in FileExtension(fileName)
  {
  }

  /** When an image was stored at its public URL `<base>/<path>`, replacing it deletes exactly the
      object that was uploaded at `path` (for a file name without '/'). */
  lemma RemoveTargetsUploadedObject(uid: string, now: nat, fileName: string, base: string)
    requires '/' !in fileName
    ensures OldObjectPath(uid, base + "/" + NewObjectPath(uid, now, fileName)) ==
            NewObjectPath(uid, now, fileName)
  {
    var leaf := ToDecimal(now) + "." + FileExtension(fileName);
    NoSlashInDecimal(now);
    NoSlashInExtension(fileName);
    assert '/' !in leaf;
    var folder := "produtos/" + uid;
    assert NewObjectPath(uid, now, fileName) == folder + "/" + leaf;
    var url := base + "/" + NewObjectPath(uid, now, fileName);
    assert url == (base + "/" + folder) + ['/'] + leaf;
    AfterLastOfJoin(base + "/" + folder, '/', leaf);
    assert OldObjectPath(uid, url) == folder + "/" + leaf;
  }

  // ----- Saving -----

  /** The columns written for a product. */
  datatype ProductPayload = ProductPayload(
    nome: string, descricao: string, preco: Price, imagem: Option<string>, userId: string)

  /** The backend calls one save issues, in order. */
  datatype BackendCall =
    | RemoveObject(path: string)
    | UploadObject(path: string)
    | InsertProduct(payload: ProductPayload)
    | UpdateProduct(id: nat, payload: ProductPayload)

  /** What the environment answers during one save: the session, `Date.now()`, the upload's
      error, the public URL, the row write's error, and the id the store gives an inserted row. */
  datatype SaveResponses = SaveResponses(
    session: Option<Session>,
    now: nat,
    uploadError: Option<string>,
    publicUrl: string,
    writeError: Option<string>,
    insertedId: nat)

  /** The calls issued, and either the row handed to `onProductSaved` or the message shown. */
  datatype SaveOutcome = SaveOutcome(calls: seq<BackendCall>, result: Result<Product>)

  predicate IsRowWrite(c: BackendCall) {
    c.InsertProduct? || c.UpdateProduct?
  }

  predicate IsStorageCall(c: BackendCall) {
    c.RemoveObject? || c.UploadObject?
  }

  /** `productData?.imagem`: the image a save keeps when no new file was picked. */
  function KeptImage(productData: Option<Product>): Option<string> {
    match productData
    case None => None
    case Some(p) => p.imagem
  }

  /** The row the store returns after writing `payload` under `id` (`.select().single()`). */
  function StoredRow(id: nat, payload: ProductPayload): Product {
    Product(id, payload.nome, Some(payload.descricao), payload.preco, payload.imagem, payload.userId)
  }

  /** The storage calls for a new image: delete the old object if there was an image, then upload. */
  function ImageCalls(productData: Option<Product>, file: PickedFile, uid: string, now: nat): seq<BackendCall> {
    (if productData.Some? && Truthy(productData.value.imagem)
     then [RemoveObject(OldObjectPath(uid, productData.value.imagem.value))]
     else [])
    + [UploadObject(NewObjectPath(uid, now, file.name))]
  }

  /** An update by id when editing, an insert when creating. */
  function RowWrite(productData: Option<Product>, payload: ProductPayload): BackendCall {
    match productData
    case Some(p) => UpdateProduct(p.id, payload)
    case None => InsertProduct(payload)
  }

  /** `handleSaveProduct`, with the backend's answers as inputs. */
  function SaveProduct(productData: Option<Product>, form: ProductForm, imageFile: Option<PickedFile>,
                       r: SaveResponses): (o: SaveOutcome)
    ensures r.session.None? ==> o == SaveOutcome([], Failure(NotAuthenticated))
    ensures o.result.Success? ==>
      r.session.Some? && o.result.value.userId == r.session.value.userId &&
      o.result.value.nome == form.nome && o.result.value.descricao == Some(form.descricao) &&
      o.result.value.preco == form.preco
    ensures o.result.Success? ==> r.writeError.None? && (imageFile.Some? ==> r.uploadError.None?)
    ensures o.result.Success? && productData.Some? ==> o.result.value.id == productData.value.id
    ensures r.session.Some? && r.writeError.None? && (imageFile.Some? ==> r.uploadError.None?) ==>
      o.result == Success(StoredRow(if productData.Some? then productData.value.id else r.insertedId,
        ProductPayload(form.nome, form.descricao, form.preco,
                       if imageFile.Some? then Some(r.publicUrl) else KeptImage(productData),
                       r.session.value.userId)))
    ensures imageFile.None? ==> forall i :: 0 <= i < |o.calls| ==> !IsStorageCall(o.calls[i])
  {
    match r.session
    case None => SaveOutcome([], Failure(NotAuthenticated))
    case Some(session) =>
      var uid := session.userId;
      var storage := if imageFile.Some? then ImageCalls(productData, imageFile.value, uid, r.now) else [];
      if imageFile.Some? && r.uploadError.Some? then
        SaveOutcome(storage, Failure(r.uploadError.value))
      else
        var imageUrl := if imageFile.Some? then Some(r.publicUrl) else KeptImage(productData);
        var payload := ProductPayload(form.nome, form.descricao, form.preco, imageUrl, uid);
        var calls := storage + [RowWrite(productData, payload)];
        if r.writeError.Some? then
          SaveOutcome(calls, Failure(r.writeError.value))
        else
          var id := if productData.Some? then productData.value.id else r.insertedId;
          SaveOutcome(calls, Success(StoredRow(id, payload)))
  }

  /** With a session and no failed upload, the save ends with exactly one row write: an update of
      the edited product's id, or an insert; its payload is the form, stamped with the session's
      user. */
  lemma SaveWritesOnce(productData: Option<Product>, form: ProductForm, imageFile: Option<PickedFile>,
                       r: SaveResponses)
    requires r.session.Some?
    requires imageFile.Some? ==> r.uploadError.None?
    ensures var o := SaveProduct(productData, form, imageFile, r);
      o.calls != [] && IsRowWrite(o.calls[|o.calls| - 1]) &&
      (forall i :: 0 <= i < |o.calls| - 1 ==> !IsRowWrite(o.calls[i])) &&
      (productData.Some? <==> o.calls[|o.calls| - 1].UpdateProduct?) &&
      (productData.Some? ==> o.calls[|o.calls| - 1].id == productData.value.id) &&
      o.calls[|o.calls| - 1].payload.userId == r.session.value.userId &&
      o.calls[|o.calls| - 1].payload.nome == form.nome &&
      o.calls[|o.calls| - 1].payload.descricao == form.descricao &&
      o.calls[|o.calls| - 1].payload.preco == form.preco
  {
    var uid := r.session.value.userId;
    var storage := if imageFile.Some? then ImageCalls(productData, imageFile.value, uid, r.now) else [];
    var imageUrl := if imageFile.Some? then Some(r.publicUrl) else KeptImage(productData);
    var write := RowWrite(productData, ProductPayload(form.nome, form.descricao, form.preco, imageUrl, uid));
    var calls := SaveProduct(productData, form, imageFile, r).calls;
    assert calls == storage + [write];
    assert forall i :: 0 <= i < |storage| ==> storage[i].RemoveObject? || storage[i].UploadObject?;
    assert calls[|calls| - 1] == write;
  }

  /** With no new file, the saved image is the product's previous image (nothing for a new
      product), whatever the preview showed. */
  lemma SaveKeepsImageWithoutFile(productData: Option<Product>, form: ProductForm, r: SaveResponses)
    requires r.session.Some?
    ensures var o := SaveProduct(productData, form, None, r);
      |o.calls| == 1 && o.calls[0].payload.imagem == KeptImage(productData) &&
      (productData.None? ==> o.calls[0].payload.imagem == None)
  {
  }

  /** With a new file and a successful upload, the file goes to `produtos/<uid>/<now>.<ext>`, the
      old object is deleted first exactly when the product had an image, and the row points at
      the new public URL. */
  lemma SaveReplacesImage(productData: Option<Product>, form: ProductForm, file: PickedFile, r: SaveResponses)
    requires r.session.Some? && r.uploadError.None?
    ensures var o := SaveProduct(productData, form, Some(file), r);
      var uid := r.session.value.userId;
      var n := |o.calls|;
      n >= 2 &&
      o.calls[n - 2] == UploadObject(NewObjectPath(uid, r.now, file.name)) &&
      o.calls[n - 1].payload.imagem == Some(r.publicUrl) &&
      (n == 3 <==> productData.Some? && Truthy(productData.value.imagem)) &&
      (n == 3 ==> o.calls[0] == RemoveObject(OldObjectPath(uid, productData.value.imagem.value)))
  {
  }

  /** A failed upload aborts before any row is written: the upload to the new path is the last
      call, and the old image has already been deleted by then when the product had one. */
  lemma SaveUploadFailure(productData: Option<Product>, form: ProductForm, file: PickedFile, r: SaveResponses)
    requires r.session.Some? && r.uploadError.Some?
    ensures var o := SaveProduct(productData, form, Some(file), r);
      o.result == Failure(r.uploadError.value) &&
      o.calls != [] && o.calls[|o.calls| - 1] == UploadObject(NewObjectPath(r.session.value.userId, r.now, file.name)) &&
      (forall i :: 0 <= i < |o.calls| ==> !IsRowWrite(o.calls[i])) &&
      (productData.Some? && Truthy(productData.value.imagem) ==> o.calls[0].RemoveObject?)
  {
  }

  /** A failed row write (`saveResult.error`) fails the save with its message after the write was
      issued, and no row reaches the list. */
  lemma SaveWriteFailure(productData: Option<Product>, form: ProductForm, imageFile: Option<PickedFile>,
                         r: SaveResponses)
    requires r.session.Some? && r.writeError.Some?
    requires imageFile.Some? ==> r.uploadError.None?
    ensures var o := SaveProduct(productData, form, imageFile, r);
      o.result == Failure(r.writeError.value) && o.calls != [] && IsRowWrite(o.calls[|o.calls| - 1])
  {
  }

  /** Reopening the modal on the row a save returned shows the form that was saved. */
  lemma ReopenShowsSavedForm(productData: Option<Product>, form: ProductForm, imageFile: Option<PickedFile>,
                             r: SaveResponses)
    requires SaveProduct(productData, form, imageFile, r).result.Success?
    ensures InitialForm(Some(SaveProduct(productData, form, imageFile, r).result.value)) == form
  {
  }

  // ----- The component's state -----

  class ProductModal {
    var formData: ProductForm
    var formattedPrice: string
    var imageFile: Option<PickedFile>
    var imagePreview: Option<string>
    var loading: bool
    var error: Option<string>

    /** The price field always shows the stored price. */
    ghost predicate Valid()
      reads this
    {
      formattedPrice == FormatToBRL(formData.preco)
    }

    /** The initial `useState` values. */
    constructor ()
      ensures Valid()
      ensures formData == EmptyForm && formattedPrice == "" && imageFile == None
      ensures imagePreview == None && !loading && error == None
    {
      formData := EmptyForm;
      formattedPrice := "";
      imageFile := None;
      imagePreview := None;
      loading := false;
      error := None;
    }

    /** The effect on `[isOpen, productData]`: when open, load the product (edit) or reset
        (create), and forget any picked file. */
    method OnOpen(isOpen: bool, productData: Option<Product>)
      requires Valid()
      modifies this
      ensures Valid()
      ensures isOpen ==>
        formData == InitialForm(productData) && imagePreview == InitialPreview(productData) && imageFile == None
      ensures !isOpen ==>
        formData == old(formData) && imagePreview == old(imagePreview) && imageFile == old(imageFile)
      ensures loading == old(loading) && error == old(error)
    {
      if isOpen {
        formData := InitialForm(productData);
        formattedPrice := FormatToBRL(formData.preco);
        imagePreview := InitialPreview(productData);
        imageFile := None;
      }
    }

    /** `handlePriceChange`: store the digits of the field as cents and redisplay them; the text
        on display reads back as the stored price. */
    method HandlePriceChange(input: string)
      requires Valid()
      modifies this
      ensures Valid()
      ensures formData == old(formData).(preco := ParseCents(input))
      ensures ParseCents(formattedPrice) == formData.preco
      ensures imageFile == old(imageFile) && imagePreview == old(imagePreview)
      ensures loading == old(loading) && error == old(error)
    {
      var price := ParseCents(input);
      formattedPrice := FormatToBRL(price);
      formData := formData.(preco := price);
      PriceRoundTrip(price);
    }

    /** `handleInputChange`. */
    method HandleInputChange(field: FormField, value: string)
      requires Valid()
      modifies this
      ensures Valid()
      ensures formData == WithInput(old(formData), field, value)
      ensures formattedPrice == old(formattedPrice)
      ensures imageFile == old(imageFile) && imagePreview == old(imagePreview)
      ensures loading == old(loading) && error == old(error)
    {
      formData := WithInput(formData, field, value);
    }

    /** `handleFileChange`: a picked file is previewed through its object URL; clearing the input
        clears both the file and the preview, even when the product has an image. */
    method HandleFileChange(file: Option<PickedFile>, objectUrl: string)
      requires Valid()
      modifies this
      ensures Valid()
      ensures imageFile == file
      ensures imagePreview == if file.Some? then Some(objectUrl) else None
      ensures formData == old(formData) && formattedPrice == old(formattedPrice)
      ensures loading == old(loading) && error == old(error)
    {
      if file.Some? {
        imageFile := file;
        imagePreview := Some(objectUrl);
      } else {
        imageFile := None;
        imagePreview := None;
      }
    }

    /** `handleSaveProduct`: run the save, then show its error (or none) and stop loading. */
    method HandleSaveProduct(productData: Option<Product>, r: SaveResponses) returns (o: SaveOutcome)
      requires Valid()
      modifies this
      ensures Valid()
      ensures o == SaveProduct(productData, formData, imageFile, r)
      ensures !loading
      ensures error == if o.result.Failure? then Some(o.result.error) else None
      ensures formData == old(formData) && formattedPrice == old(formattedPrice)
      ensures imageFile == old(imageFile) && imagePreview == old(imagePreview)
    {
      loading := true;
      error := None;
      o := SaveProduct(productData, formData, imageFile, r);
      if o.result.Failure? {
        error := Some(o.result.error);
      }
      loading := false;
    }
  }
}
