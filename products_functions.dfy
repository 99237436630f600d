/** Functions/ProductsFunctions.cs: creating, updating and deleting product rows, with an optional
    image kept in the product-images container. A request is either multipart/form-data (text
    fields, and an "ImageFile" part) or JSON. The number parsers (`double.TryParse`,
    `int.TryParse`), the fresh product id and the container's URI are inputs; a form that does not
    parse is `None`, as a JSON body that does not deserialize is. */
module ProductsFunctions {
  import opened Wrappers
  import opened Text
  import opened Models
  import opened Entities
  import opened Map
  import opened Http
  import opened Storage
  import opened Multipart
  import opened Base64

  /** The JSON body of `POST products` and `PUT products/{id}`; a missing number reads 0. */
  datatype ProductCreateUpdate = ProductCreateUpdate(
    productName: Option<string>,
    description: Option<string>,
    price: Money,
    stockAvailable: int,
    imageUrl: Option<string>)

  /** What the request turned into before validation: a row to validate, or a response already. */
  datatype Draft = Draft(entity: ProductEntity) | Refused(response: Response<ProductDto>)

  const ImageField := "ImageFile"
  const InvalidBody := "Invalid body"
  const CreateFailed := "Failed to create product"
  const NameRequired := "Product name is required"
  const NameEmpty := "Product name cannot be empty"
  const PriceNotPositive := "Price must be greater than 0"
  const ProductNotFound := "Product not found"

  /** `new ProductEntity(productId) { ImageUrl = "", Id = productId }`. */
  function NewProduct(productId: string): (e: ProductEntity)
    ensures e.partitionKey == ProductPartition && e.rowKey == productId && e.id == Some(productId)
    ensures e.productName == Some("") && e.price == 0 && e.stockAvailable == 0 && e.imageUrl == Some("")
  {
    ProductEntity(ProductPartition, productId, Some(""), Some(""), 0, 0, Some(""), Some(productId))
  }

  /** The blob an uploaded image is stored under. */
  function ImageBlobName(rowKey: string, fileName: string): string {
    rowKey + "-" + fileName
  }

  /** The image part a form carries, when it has one with content. */
  function ImageOf(form: FormData): (r: Option<FilePart>)
    ensures r.Some? ==> |r.value.data| > 0 && r.value.fieldName == ImageField
    ensures r.None? <==> FirstFile(form.files, ImageField).None? || |FirstFile(form.files, ImageField).value.data| == 0
  {
    var file := FirstFile(form.files, ImageField);
    if file.Some? && |file.value.data| > 0 then file else None
  }

  /** The container after a form's image, if any, is uploaded for row `rowKey` (overwriting). */
  function WithImage(images: map<string, seq<byte>>, rowKey: string, form: FormData): map<string, seq<byte>> {
    match ImageOf(form)
    case None => images
    case Some(file) => images[ImageBlobName(rowKey, file.fileName) := file.data]
  }

  /** The row's image URL after the upload, if there was one. */
  function WithImageUrl(e: ProductEntity, form: FormData, containerUri: string): (r: ProductEntity)
    ensures r.partitionKey == e.partitionKey && r.rowKey == e.rowKey && r.id == e.id
  {
    match ImageOf(form)
    case None => e
    case Some(file) => e.(imageUrl := Some(BlobUri(containerUri, ImageBlobName(e.rowKey, file.fileName))))
  }

  /** The validation both Create and Update run last: a blank name, then a price that is not
      positive. `None` exactly when the row is acceptable. */
  function Problem(e: ProductEntity, nameMessage: string): (r: Option<string>)
    ensures r.None? <==> !IsNullOrWhiteSpace(e.productName) && e.price > 0
    ensures IsNullOrWhiteSpace(e.productName) ==> r == Some(nameMessage)
    ensures !IsNullOrWhiteSpace(e.productName) && e.price <= 0 ==> r == Some(PriceNotPositive)
  {
    if IsNullOrWhiteSpace(e.productName) then Some(nameMessage)
    else if e.price <= 0 then Some(PriceNotPositive)
    else None
  }

  // ------------------------------------------------------------ create

  /** The text fields of a create form: a present ProductName or Description is taken as it
      is; Price and StockAvailable only when they parse. */
  function CreateFields(e: ProductEntity, text: map<string, string>,
                        parsePrice: string -> Option<Money>, parseInt: string -> Option<int>): (r: ProductEntity)
    ensures r.partitionKey == e.partitionKey && r.rowKey == e.rowKey && r.id == e.id
  {
    var e1 := if "ProductName" in text then e.(productName := Some(text["ProductName"])) else e;
    var e2 := if "Description" in text then e1.(description := Some(text["Description"])) else e1;
    var e3 := if "Price" in text && parsePrice(text["Price"]).Some? then e2.(price := parsePrice(text["Price"]).value) else e2;
    if "StockAvailable" in text && parseInt(text["StockAvailable"]).Some?
    then e3.(stockAvailable := parseInt(text["StockAvailable"]).value) else e3
  }

  /** The fields of a JSON create: nulls become "". */
  function CreateFromJson(e: ProductEntity, input: ProductCreateUpdate): (r: ProductEntity)
    ensures r.partitionKey == e.partitionKey && r.rowKey == e.rowKey && r.id == e.id
  {
    e.(productName := Some(OrEmpty(input.productName)), description := Some(OrEmpty(input.description)),
       price := input.price, stockAvailable := input.stockAvailable, imageUrl := Some(OrEmpty(input.imageUrl)))
  }

  /** The row a create request proposes, or the response that ends it early. */
  function CreateDraft(contentType: string, form: Option<FormData>, json: Option<ProductCreateUpdate>,
                       parsePrice: string -> Option<Money>, parseInt: string -> Option<int>,
                       productId: string, containerUri: string): (d: Draft)
    ensures d.Draft? ==> d.entity.partitionKey == ProductPartition && d.entity.rowKey == productId
                         && d.entity.id == Some(productId)
    ensures d.Refused? <==> (IsMultipart(contentType) && form.None?) || (!IsMultipart(contentType) && json.None?)
    ensures d.Refused? ==> d.response == if IsMultipart(contentType) then InternalServerError(CreateFailed)
                                         else BadRequest(InvalidBody)
  {
    if IsMultipart(contentType) then
      if form.None? then Refused(InternalServerError(CreateFailed))
      else Draft(WithImageUrl(CreateFields(NewProduct(productId), form.value.text, parsePrice, parseInt),
                              form.value, containerUri))
    else if json.None? then Refused(BadRequest(InvalidBody))
    else Draft(CreateFromJson(NewProduct(productId), json.value))
  }

  /** A create form sets a field only when the form has it, and a number only when it parses;
      otherwise the new row's default stays. */
  lemma CreateFormRules(text: map<string, string>, parsePrice: string -> Option<Money>,
                        parseInt: string -> Option<int>, productId: string)
    ensures var e := CreateFields(NewProduct(productId), text, parsePrice, parseInt);
      && e.productName == Some(if "ProductName" in text then text["ProductName"] else "")
      && e.price == (if "Price" in text && parsePrice(text["Price"]).Some? then parsePrice(text["Price"]).value else 0)
      && e.stockAvailable == (if "StockAvailable" in text && parseInt(text["StockAvailable"]).Some?
                              then parseInt(text["StockAvailable"]).value else 0)
      && e.rowKey == productId && e.id == Some(productId) && e.imageUrl == Some("")
  {
  }

  /** The create form's text fields, one conditional assignment at a time. */
  method ApplyCreateForm(entity: ProductEntity, input: map<string, string>,
                         parsePrice: string -> Option<Money>, parseInt: string -> Option<int>) returns (e: ProductEntity)
    ensures e == CreateFields(entity, input, parsePrice, parseInt)
  {
    e := entity;
    if "ProductName" in input { e := e.(productName := Some(input["ProductName"])); }
    if "Description" in input { e := e.(description := Some(input["Description"])); }
    if "Price" in input && parsePrice(input["Price"]).Some? { e := e.(price := parsePrice(input["Price"]).value); }
    if "StockAvailable" in input && parseInt(input["StockAvailable"]).Some? {
      e := e.(stockAvailable := parseInt(input["StockAvailable"]).value);
    }
  }

  method ApplyCreateJson(entity: ProductEntity, input: ProductCreateUpdate) returns (e: ProductEntity)
    ensures e == CreateFromJson(entity, input)
  {
    e := entity;
    e := e.(productName := Some(OrEmpty(input.productName)));
    e := e.(description := Some(OrEmpty(input.description)));
    e := e.(price := input.price);
    e := e.(stockAvailable := input.stockAvailable);
    e := e.(imageUrl := Some(OrEmpty(input.imageUrl)));
  }

  /** Upload the form's image, when it has one with content, under `RowKey-FileName`
      (overwriting), and point ImageUrl at it. */
  method UploadImage(st: StorageAccount, entity: ProductEntity, form: FormData, containerUri: string)
    returns (e: ProductEntity)
    modifies st
    ensures e == WithImageUrl(entity, form, containerUri)
    ensures st.productImages == WithImage(old(st.productImages), entity.rowKey, form)
    ensures st.customers == old(st.customers) && st.products == old(st.products) && st.orders == old(st.orders)
    ensures st.orderNotifications == old(st.orderNotifications) && st.paymentProofs == old(st.paymentProofs)
  {
    e := entity;
    var file := FirstFile(form.files, ImageField);
    if file.Some? && |file.value.data| > 0 {
      var blobName := ImageBlobName(e.rowKey, file.value.fileName);
      st.productImages := st.productImages[blobName := file.value.data];
      e := e.(imageUrl := Some(BlobUri(containerUri, blobName)));
    }
  }

  /** The part of Create before validation: the new row filled from the form (uploading its
      image) or from the JSON body. */
  method ReadCreateRequest(st: StorageAccount, contentType: string, form: Option<FormData>,
                           json: Option<ProductCreateUpdate>, parsePrice: string -> Option<Money>,
                           parseInt: string -> Option<int>, productId: string, containerUri: string)
    returns (d: Draft)
    modifies st
    ensures d == CreateDraft(contentType, form, json, parsePrice, parseInt, productId, containerUri)
    ensures st.productImages == if IsMultipart(contentType) && form.Some?
                                then WithImage(old(st.productImages), productId, form.value)
                                else old(st.productImages)
    ensures st.customers == old(st.customers) && st.products == old(st.products) && st.orders == old(st.orders)
    ensures st.orderNotifications == old(st.orderNotifications) && st.paymentProofs == old(st.paymentProofs)
  {
    var e := NewProduct(productId);
    if IsMultipart(contentType) {
      if form.None? {
        return Refused(InternalServerError(CreateFailed));
      }
      e := ApplyCreateForm(e, form.value.text, parsePrice, parseInt);
      e := UploadImage(st, e, form.value, containerUri);
    } else {
      if json.None? {
        return Refused(BadRequest(InvalidBody));
      }
      e := ApplyCreateJson(e, json.value);
    }
    d := Draft(e);
  }

  /** `Products_Create`. The image is uploaded before validation, so a refused form still leaves
      its image in the container. */
  method Create(st: StorageAccount, contentType: string, form: Option<FormData>, json: Option<ProductCreateUpdate>,
                parsePrice: string -> Option<Money>, parseInt: string -> Option<int>,
                productId: string, containerUri: string) returns (r: Response<ProductDto>)
    requires st.Valid()
    modifies st
    ensures st.Valid()
    ensures var d := CreateDraft(contentType, form, json, parsePrice, parseInt, productId, containerUri);
      && (d.Refused? ==> r == d.response)
      && (d.Draft? && Problem(d.entity, NameRequired).Some? ==> r == BadRequest(Problem(d.entity, NameRequired).value))
      && (d.Draft? && Problem(d.entity, NameRequired).None? && (ProductPartition, productId) in old(st.products)
          ==> r == InternalServerError(CreateFailed))
      && (d.Draft? && Problem(d.entity, NameRequired).None? && (ProductPartition, productId) !in old(st.products)
          ==> r == Created(ProductToDto(d.entity))
              && st.products == old(st.products)[(ProductPartition, productId) := d.entity])
    ensures !r.Created? ==> st.products == old(st.products)
    ensures st.productImages == if IsMultipart(contentType) && form.Some?
                                then WithImage(old(st.productImages), productId, form.value)
                                else old(st.productImages)
    ensures st.customers == old(st.customers) && st.orders == old(st.orders)
    ensures st.orderNotifications == old(st.orderNotifications) && st.paymentProofs == old(st.paymentProofs)
  {
    var d := ReadCreateRequest(st, contentType, form, json, parsePrice, parseInt, productId, containerUri);
    if d.Refused? {
      return d.response;
    }
    var e := d.entity;
    var problem := Problem(e, NameRequired);
    if problem.Some? {
      return BadRequest(problem.value);
    }
    if (ProductPartition, productId) in st.products {
      return InternalServerError(CreateFailed);
    }
    st.products := st.products[(ProductPartition, productId) := e];
    r := Created(ProductToDto(e));
  }

  // ------------------------------------------------------------ update

  /** The text fields of an update form: ProductName when not empty, Description whenever present
      (even empty), Price when it parses and is positive, StockAvailable when it parses. */
  function UpdateFields(e: ProductEntity, text: map<string, string>,
                        parsePrice: string -> Option<Money>, parseInt: string -> Option<int>): (r: ProductEntity)
    ensures r.partitionKey == e.partitionKey && r.rowKey == e.rowKey && r.id == e.id
  {
    var e1 := if "ProductName" in text && text["ProductName"] != "" then e.(productName := Some(text["ProductName"])) else e;
    var e2 := if "Description" in text then e1.(description := Some(text["Description"])) else e1;
    var e3 := if "Price" in text && parsePrice(text["Price"]).Some? && parsePrice(text["Price"]).value > 0
              then e2.(price := parsePrice(text["Price"]).value) else e2;
    if "StockAvailable" in text && parseInt(text["StockAvailable"]).Some?
    then e3.(stockAvailable := parseInt(text["StockAvailable"]).value) else e3
  }

  /** The fields of a JSON update: strings when not empty, Price when positive, and always
      StockAvailable. */
  function UpdateFromJson(e: ProductEntity, input: ProductCreateUpdate): (r: ProductEntity)
    ensures r.partitionKey == e.partitionKey && r.rowKey == e.rowKey && r.id == e.id
  {
    e.(productName := Pick(e.productName, input.productName), description := Pick(e.description, input.description),
       price := if input.price > 0 then input.price else e.price, stockAvailable := input.stockAvailable,
       imageUrl := Pick(e.imageUrl, input.imageUrl))
  }

  /** The row an update request proposes, or the response that ends it early. A form that does not
      parse throws inside the handler's catch-all, which answers 404. */
  function UpdateDraft(existing: ProductEntity, contentType: string, form: Option<FormData>,
                       json: Option<ProductCreateUpdate>, parsePrice: string -> Option<Money>,
                       parseInt: string -> Option<int>, containerUri: string): (d: Draft)
    ensures d.Draft? ==> d.entity.partitionKey == existing.partitionKey && d.entity.rowKey == existing.rowKey
                         && d.entity.id == existing.id
    ensures d.Refused? <==> (IsMultipart(contentType) && form.None?) || (!IsMultipart(contentType) && json.None?)
    ensures d.Refused? ==> d.response == if IsMultipart(contentType) then NotFound(ProductNotFound)
                                         else BadRequest(InvalidBody)
  {
    if IsMultipart(contentType) then
      if form.None? then Refused(NotFound(ProductNotFound))
      else Draft(WithImageUrl(UpdateFields(existing, form.value.text, parsePrice, parseInt), form.value, containerUri))
    else if json.None? then Refused(BadRequest(InvalidBody))
    else Draft(UpdateFromJson(existing, json.value))
  }

  /** An update form changes ProductName only to a non-empty value, Price only to a positive
      parsed value, and the stock only to a parsed value; it never touches the keys or Id. */
  lemma UpdateFormRules(e: ProductEntity, text: map<string, string>,
                        parsePrice: string -> Option<Money>, parseInt: string -> Option<int>)
    ensures var u := UpdateFields(e, text, parsePrice, parseInt);
      && (u.productName != e.productName ==> "ProductName" in text && u.productName == Some(text["ProductName"])
                                             && text["ProductName"] != "")
      && (u.price != e.price ==> "Price" in text && parsePrice(text["Price"]) == Some(u.price) && u.price > 0)
      && (u.stockAvailable != e.stockAvailable ==> "StockAvailable" in text
                                                   && parseInt(text["StockAvailable"]) == Some(u.stockAvailable))
      && ("Description" in text ==> u.description == Some(text["Description"]))
      && u.rowKey == e.rowKey && u.partitionKey == e.partitionKey && u.id == e.id && u.imageUrl == e.imageUrl
  {
  }

  /** A JSON update is the product merge of Helpers/Map.cs applied to the body read as a DTO
      without an Id. */
  lemma JsonUpdateIsMapMerge(e: ProductEntity, input: ProductCreateUpdate)
    ensures UpdateFromJson(e, input)
         == MergeProduct(e, ProductDto(None, input.productName, input.description, input.price,
                                       input.stockAvailable, input.imageUrl))
  {
  }

  method ApplyUpdateForm(entity: ProductEntity, input: map<string, string>,
                         parsePrice: string -> Option<Money>, parseInt: string -> Option<int>) returns (e: ProductEntity)
    ensures e == UpdateFields(entity, input, parsePrice, parseInt)
  {
    e := entity;
    if "ProductName" in input && input["ProductName"] != "" { e := e.(productName := Some(input["ProductName"])); }
    if "Description" in input { e := e.(description := Some(input["Description"])); }
    if "Price" in input && parsePrice(input["Price"]).Some? && parsePrice(input["Price"]).value > 0 {
      e := e.(price := parsePrice(input["Price"]).value);
    }
    if "StockAvailable" in input && parseInt(input["StockAvailable"]).Some? {
      e := e.(stockAvailable := parseInt(input["StockAvailable"]).value);
    }
  }

  method ApplyUpdateJson(entity: ProductEntity, input: ProductCreateUpdate) returns (e: ProductEntity)
    ensures e == UpdateFromJson(entity, input)
  {
    e := entity;
    if !IsNullOrEmpty(input.productName) { e := e.(productName := input.productName); }
    if !IsNullOrEmpty(input.description) { e := e.(description := input.description); }
    if input.price > 0 { e := e.(price := input.price); }
    e := e.(stockAvailable := input.stockAvailable);
    if !IsNullOrEmpty(input.imageUrl) { e := e.(imageUrl := input.imageUrl); }
  }

  /** The part of Update before validation: the stored row merged with the form (uploading its
      image) or with the JSON body. */
  method ReadUpdateRequest(st: StorageAccount, existing: ProductEntity, contentType: string, form: Option<FormData>,
                           json: Option<ProductCreateUpdate>, parsePrice: string -> Option<Money>,
                           parseInt: string -> Option<int>, containerUri: string)
    returns (d: Draft)
    modifies st
    ensures d == UpdateDraft(existing, contentType, form, json, parsePrice, parseInt, containerUri)
    ensures st.productImages == if IsMultipart(contentType) && form.Some?
                                then WithImage(old(st.productImages), existing.rowKey, form.value)
                                else old(st.productImages)
    ensures st.customers == old(st.customers) && st.products == old(st.products) && st.orders == old(st.orders)
    ensures st.orderNotifications == old(st.orderNotifications) && st.paymentProofs == old(st.paymentProofs)
  {
    var e := existing;
    if IsMultipart(contentType) {
      if form.None? {
        return Refused(NotFound(ProductNotFound));
      }
      e := ApplyUpdateForm(e, form.value.text, parsePrice, parseInt);
      e := UploadImage(st, e, form.value, containerUri);
    } else {
      if json.None? {
        return Refused(BadRequest(InvalidBody));
      }
      e := ApplyUpdateJson(e, json.value);
    }
    d := Draft(e);
  }

  /** `Products_Update`: only the ("Product", id) row is looked up. As in Create, the image is
      uploaded before validation. */
  method Update(st: StorageAccount, id: string, contentType: string, form: Option<FormData>,
                json: Option<ProductCreateUpdate>, parsePrice: string -> Option<Money>,
                parseInt: string -> Option<int>, containerUri: string) returns (r: Response<ProductDto>)
    requires st.Valid()
    modifies st
    ensures st.Valid()
    ensures (ProductPartition, id) !in old(st.products) ==> r == NotFound(ProductNotFound)
    ensures (ProductPartition, id) in old(st.products) ==>
      var d := UpdateDraft(old(st.products)[(ProductPartition, id)], contentType, form, json, parsePrice, parseInt,
                           containerUri);
      && (d.Refused? ==> r == d.response)
      && (d.Draft? && Problem(d.entity, NameEmpty).Some? ==> r == BadRequest(Problem(d.entity, NameEmpty).value))
      && (d.Draft? && Problem(d.entity, NameEmpty).None?
          ==> r == Ok(ProductToDto(d.entity)) && st.products == old(st.products)[(ProductPartition, id) := d.entity])
    ensures !r.Ok? ==> st.products == old(st.products)
    ensures (ProductPartition, id) !in old(st.products) || !IsMultipart(contentType) || form.None?
            ==> st.productImages == old(st.productImages)
    ensures (ProductPartition, id) in old(st.products) && IsMultipart(contentType) && form.Some?
            ==> st.productImages == WithImage(old(st.productImages), id, form.value)
    ensures st.customers == old(st.customers) && st.orders == old(st.orders)
    ensures st.orderNotifications == old(st.orderNotifications) && st.paymentProofs == old(st.paymentProofs)
  {
    var key := (ProductPartition, id);
    if key !in st.products {
      return NotFound(ProductNotFound);
    }
    var existing := st.products[key];
    assert existing.partitionKey == ProductPartition && existing.rowKey == id;
    var d := ReadUpdateRequest(st, existing, contentType, form, json, parsePrice, parseInt, containerUri);
    if d.Refused? {
      return d.response;
    }
    var e := d.entity;
    var problem := Problem(e, NameEmpty);
    if problem.Some? {
      return BadRequest(problem.value);
    }
    assert (e.partitionKey, e.rowKey) == key;
    ProductStoredUnderItsKeys(st.products, e);
    st.products := st.products[(e.partitionKey, e.rowKey) := e];
    r := Ok(ProductToDto(e));
  }

  // ------------------------------------------------------------ delete

  /** `s.Split('/').Last()`: the text after the last '/', or all of `s` when it has none. */
  function AfterLastSlash(s: string): (r: string)
    ensures '/' !in r
    ensures |r| <= |s| && r == s[|s| - |r|..]
    ensures |r| < |s| ==> s[|s| - |r| - 1] == '/'
  {
    if s == [] then []
    else if s[|s| - 1] == '/' then []
    else AfterLastSlash(s[..|s| - 1]) + [s[|s| - 1]]
  }

  /** The name after the last '/' of a joined path is the last part, when that part has no '/'. */
  lemma {:induction false} AfterLastSlashOfJoin(prefix: string, name: string)
    requires '/' !in name
    ensures AfterLastSlash(prefix + "/" + name) == name
    decreases |name|
  {
    var s := prefix + "/" + name;
    if name == [] {
      assert s[|s| - 1] == '/';
    } else {
      var last := name[|name| - 1];
      assert s[|s| - 1] == last;
      assert s[..|s| - 1] == prefix + "/" + name[..|name| - 1];
      AfterLastSlashOfJoin(prefix, name[..|name| - 1]);
      assert name[..|name| - 1] + [last] == name;
    }
  }

  /** Delete finds the blob Create or Update stored the image under, as long as the row key and
      the file name have no '/'. */
  lemma DeleteFindsUploadedImage(containerUri: string, rowKey: string, fileName: string)
    requires '/' !in rowKey && '/' !in fileName
    ensures AfterLastSlash(BlobUri(containerUri, ImageBlobName(rowKey, fileName))) == ImageBlobName(rowKey, fileName)
  {
    AfterLastSlashOfJoin(containerUri, ImageBlobName(rowKey, fileName));
  }

  /** A file name with a '/' is stored under one blob name and deleted under another: the image
      stays behind. */
  lemma SlashInFileNameMissesImage(containerUri: string)
    ensures AfterLastSlash(BlobUri(containerUri, ImageBlobName("p1", "a/b.png"))) != ImageBlobName("p1", "a/b.png")
  {
    var name := ImageBlobName("p1", "a/b.png");
    assert '/' in name by { assert name[4] == '/'; }
  }

  /** `Products_Delete`: a missing ("Product", id) row is a 404; otherwise the blob named by the
      end of a non-empty ImageUrl is deleted if it exists, then the row. */
  method Delete(st: StorageAccount, id: string) returns (r: Response<ProductDto>)
    requires st.Valid()
    modifies st
    ensures st.Valid()
    ensures (ProductPartition, id) !in old(st.products)
            ==> r == NotFound(ProductNotFound) && st.products == old(st.products)
                && st.productImages == old(st.productImages)
    ensures (ProductPartition, id) in old(st.products) ==>
      var url := old(st.products)[(ProductPartition, id)].imageUrl;
      && r == NoContent
      && st.products == old(st.products) - {(ProductPartition, id)}
      && st.productImages == if IsNullOrEmpty(url) then old(st.productImages)
                             else old(st.productImages) - {AfterLastSlash(url.value)}
    ensures st.customers == old(st.customers) && st.orders == old(st.orders)
    ensures st.orderNotifications == old(st.orderNotifications) && st.paymentProofs == old(st.paymentProofs)
  {
    var key := (ProductPartition, id);
    if key !in st.products {
      return NotFound(ProductNotFound);
    }
    var existing := st.products[key];
    if !IsNullOrEmpty(existing.imageUrl) {
      var blobName := AfterLastSlash(existing.imageUrl.value);
      st.productImages := st.productImages - {blobName};
    }
    st.products := st.products - {key};
    r := NoContent;
  }
}
