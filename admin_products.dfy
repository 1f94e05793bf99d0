/**
 * The products page of the admin panel: its search box and the submission of the
 * add/edit form (validation, the choice of image, the upload of a data URL, and
 * whether the product is added or updated).
 */
module AdminProducts {
  import opened Wrappers
  import opened Text
  import opened Lists
  import opened Tables
  import opened Records
  import opened Upload
  import opened Search
  import opened ApiClient

  /** A product as the page holds it: any field may be missing from the object. */
  datatype ProductItem = ProductItem(id: int, name: Option<string>, models: Option<string>, image: Option<string>)

  /** The searched fields: `(product.name || '').toLowerCase()` and the same for models. */
  function SearchedFields(p: ProductItem): seq<string> {
    [Lower(OrEmpty(p.name)), Lower(OrEmpty(p.models))]
  }

  /**
   * `searchProducts`: an empty trimmed term shows every product; otherwise a product is
   * kept iff every term is in its lower-cased name or models, in list order.
   */
  function SearchProducts(input: string, products: seq<ProductItem>): (r: seq<ProductItem>)
    ensures Normalize(input) == "" ==> r == products
    ensures Normalize(input) != "" ==> forall p :: p in r <==>
      p in products && EveryTermIn(SplitOnSpaces(Normalize(input)), [Lower(OrEmpty(p.name)), Lower(OrEmpty(p.models))])
    ensures IsSubsequence(r, products)
  {
    Select(Normalize(input), products, SearchedFields)
  }

  /** A product with a missing name or models is searched as if that field were "". */
  lemma MissingFieldIsEmpty(input: string, products: seq<ProductItem>, p: ProductItem)
    requires p in products && Normalize(input) != ""
    ensures p.(name := None) in products ==>
      (p.(name := None) in SearchProducts(input, products) <==> p.(name := Some("")) in SearchProducts(input, products + [p.(name := Some(""))]))
  {
    var q := p.(name := None);
    var e := p.(name := Some(""));
    assert SearchedFields(q) == SearchedFields(e);
    assert e in products + [e];
  }

  /** The search keeps each product as many times as it is listed, or drops it. */
  lemma SearchAddsNothing(input: string, products: seq<ProductItem>)
    ensures forall p ::
      multiset(SearchProducts(input, products))[p] ==
        (if Normalize(input) == "" || EveryTermIn(SplitOnSpaces(Normalize(input)), SearchedFields(p))
         then multiset(products)[p] else 0)
  {
    SelectCounts(Normalize(input), products, SearchedFields);
  }

  // ---------------------------------------------------------------------------
  // The form
  // ---------------------------------------------------------------------------

  /** The image file input: nothing chosen, a file read as a data URL, or a read that failed. */
  datatype FileChoice = NoFile | FileRead(dataUrl: string) | FileReadFailed

  datatype ProductForm = ProductForm(
    id: string, name: string, models: string, file: FileChoice, currentImage: string)

  /** The image shown when a product has none. */
  const Placeholder := "https://placehold.co/300x300?text=صورة+المنتج"

  /**
   * The selected file first, then a non-empty current image, then the placeholder; a
   * file that cannot be read leaves the placeholder, not the current image.
   */
  function ResolveImage(file: FileChoice, currentImage: string): (image: string)
    ensures file.FileRead? ==> image == file.dataUrl
    ensures file.NoFile? && currentImage != "" ==> image == currentImage
    ensures file.FileReadFailed? || (file.NoFile? && currentImage == "") ==> image == Placeholder
  {
    match file
    case FileRead(dataUrl) => dataUrl
    case FileReadFailed => Placeholder
    case NoFile => if currentImage != "" then currentImage else Placeholder
  }

  /**
   * Only a string starting with `data:image` (case-sensitive) is sent to the upload
   * endpoint; its URL replaces it when the upload succeeds, and it is kept as it is
   * otherwise. `upload` is the endpoint's answer for a data URL.
   */
  function FinalImage(resolved: string, upload: string -> Option<string>): (image: string)
    ensures !StartsWith(resolved, "data:image") ==> image == resolved
    ensures StartsWith(resolved, "data:image") && upload(resolved).Some? ==> image == upload(resolved).value
    ensures upload(resolved).None? ==> image == resolved
  {
    if StartsWith(resolved, "data:image") then upload(resolved).GetOr(resolved) else resolved
  }

  /** The upload endpoint as the page sees it: the body `{ dataUrl }`, then the URL of a 201. */
  function ServerUpload(nowMs: nat, rand: string, writeOk: bool): string -> Option<string> {
    (d: string) => UploadedUrl(Upload.UploadImage(Object(map["dataUrl" := d]), nowMs, rand, writeOk))
  }

  datatype ProductSubmission =
    | Rejected
    | Add(fields: ProductFields)
    | Change(id: Option<int>, fields: ProductFields)

  /**
   * `handleProductFormSubmit`: rejected when name or models is empty (they are not
   * trimmed); otherwise an update keyed by `parseInt(id)` when the hidden id is not empty,
   * and an add without id when it is.
   */
  function SubmitProductForm(form: ProductForm, upload: string -> Option<string>): (s: ProductSubmission)
    ensures s.Rejected? <==> form.name == "" || form.models == ""
    ensures s.Change? <==> form.name != "" && form.models != "" && form.id != ""
    ensures s.Change? ==> s.id == ParseInt(form.id)
    ensures !s.Rejected? ==>
      s.fields == ProductFields(form.name, form.models, FinalImage(ResolveImage(form.file, form.currentImage), upload))
  {
    if form.name == "" || form.models == "" then Rejected
    else
      var fields := ProductFields(form.name, form.models, FinalImage(ResolveImage(form.file, form.currentImage), upload));
      if form.id != "" then Change(ParseInt(form.id), fields) else Add(fields)
  }

  lemma PlaceholderIsNotUploaded()
    ensures !StartsWith(Placeholder, "data:image")
  {
    assert Placeholder == "https://placehold.co/" + "300x300?text=صورة+المنتج";
    assert Placeholder[0] == 'h';
  }

  /**
   * The image a valid submission stores: a chosen file wins over the current image, a
   * non-empty current image over the placeholder, and a file that cannot be read gives the
   * placeholder even when the product had an image. A current image that is a URL is kept as
   * it is, and the placeholder is never uploaded.
   */
  lemma SubmittedImagePrecedence(form: ProductForm, upload: string -> Option<string>)
    requires form.name != "" && form.models != ""
    ensures var image := SubmitProductForm(form, upload).fields.image;
      && (form.file.FileRead? ==> image == FinalImage(form.file.dataUrl, upload))
      && (form.file.NoFile? && form.currentImage != "" ==> image == FinalImage(form.currentImage, upload))
      && (form.file.NoFile? && form.currentImage != "" && !StartsWith(form.currentImage, "data:image") ==>
            image == form.currentImage)
      && (form.file.FileReadFailed? || (form.file.NoFile? && form.currentImage == "") ==> image == Placeholder)
    ensures !form.file.NoFile? ==>
      forall c :: SubmitProductForm(form.(currentImage := c), upload) == SubmitProductForm(form, upload)
  {
    PlaceholderIsNotUploaded();
  }

  /** The id field of a product opened for editing reaches that product's row. */
  lemma EditedProductIsUpdated(form: ProductForm, upload: string -> Option<string>, n: nat)
    requires form.id == NatToString(n) && form.name != "" && form.models != ""
    ensures SubmitProductForm(form, upload).Change? && SubmitProductForm(form, upload).id == Some(n)
    ensures Router.Dispatch("PUT", ProductPath(SubmitProductForm(form, upload).id)) == Router.UpdateProduct(n)
  {
    ParseIntOfNatToString(n);
    UpdatePathRoutes(Some(n));
  }

  lemma DataImageHead(rest: string)
    ensures StartsWith("data:image" + rest, "data:image")
  {
    assert ("data:image" + rest)[..10] == "data:image";
  }

  /** A data URL the server's pattern refuses gets a 400, so the page keeps the data URL itself. */
  lemma RefusedDataUrlIsKept(d: string, nowMs: nat, rand: string, writeOk: bool)
    requires MatchDataUrl(d).None?
    ensures FinalImage(d, ServerUpload(nowMs, rand, writeOk)) == d
  {
    assert Member(Object(map["dataUrl" := d]), "dataUrl") == d;
  }

  /**
   * A GIF passes the page's `data:image` test but not the server's pattern: the upload
   * answers 400 and the data URL itself is stored as the product image.
   */
  lemma GifIsStoredInline(nowMs: nat, rand: string, writeOk: bool)
    ensures var gif := "data:image/gif;base64,R0lG";
      StartsWith(gif, "data:image") && FinalImage(gif, ServerUpload(nowMs, rand, writeOk)) == gif
  {
    GifIsRefused();
    RefusedDataUrlIsKept("data:image/gif;base64,R0lG", nowMs, rand, writeOk);
    GifLooksLikeAnImage();
  }

  lemma GifIsRefused()
    ensures MatchDataUrl("data:image/gif;base64,R0lG") == None
  {
    WrongTypeIsRejected();
  }

  lemma GifLooksLikeAnImage()
    ensures StartsWith("data:image/gif;base64,R0lG", "data:image")
  {
    assert "data:image/gif;base64,R0lG" == "data:image" + "/gif;base64,R0lG";
    DataImageHead("/gif;base64,R0lG");
  }

  /**
   * The server accepts the prefix in any letter case, but the page only uploads a
   * lower-case `data:image`: a data URL written `DATA:IMAGE/...` is stored inline.
   */
  lemma UpperCaseDataUrlIsNotUploaded(head: string, sub: string, mark: string, payload: string,
    upload: string -> Option<string>)
    requires Lower(head) == "data:image/" && head[0] == 'D'
    requires IsImageSubtype(sub) && Lower(mark) == ";base64," && IsPayload(payload)
    ensures var s := head + sub + mark + payload;
      MatchDataUrl(s).Some? && FinalImage(s, upload) == s
  {
    var s := head + sub + mark + payload;
    MatchDataUrlComplete(head, sub, mark, payload);
    assert s[0] == head[0];
  }

  /** An accepted, lower-case data URL that the server writes is replaced by its image URL. */
  lemma AcceptedDataUrlIsUploaded(rest: string, nowMs: nat, rand: string)
    requires MatchDataUrl("data:image" + rest).Some?
    ensures var d := "data:image" + rest;
      FinalImage(d, ServerUpload(nowMs, rand, true))
        == ImagesUrl + FileName(nowMs, rand, Extension(MatchDataUrl(d).value.subtype))
  {
    var d := "data:image" + rest;
    DataImageHead(rest);
    assert Member(Object(map["dataUrl" := d]), "dataUrl") == d;
  }
}
