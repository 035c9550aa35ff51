/** The product form's local state updates (components/ProductForm.tsx and its
    older twin components/ProductForm.js): the property-value map, the image
    list and the payload sent on save. Every update is a copy: the new value is
    computed from the previous one and nothing else changes. */
module ProductForm {
  import opened Common

  /** A value in the product's property map. Selections are strings, but the
      TypeScript form seeds a new product's map with `{ name: '', values: [] }`,
      so a key may also hold a list. */
  datatype FieldValue = Text(s: string) | Texts(items: seq<string>)

  type PropertyMap = map<string, FieldValue>

  /** The TypeScript form's starting map: the product's own, or the seed. */
  function InitialPropertiesTs(existing: Option<PropertyMap>): (m: PropertyMap)
    ensures existing.Some? ==> m == existing.value
    ensures existing.None? ==> m.Keys == {"name", "values"} && m["name"] == Text("") && m["values"] == Texts([])
  {
    if existing.Some? then existing.value else map["name" := Text(""), "values" := Texts([])]
  }

  /** The JavaScript form's starting map: the product's own, or `{}`. */
  function InitialPropertiesJs(existing: Option<PropertyMap>): (m: PropertyMap)
    ensures existing.Some? ==> m == existing.value
    ensures existing.None? ==> m == map[]
  {
    if existing.Some? then existing.value else map[]
  }

  /** `setProductProps`: a copy of the map with `propName` set to `value`. */
  function SetProductProps(prev: PropertyMap, propName: string, value: string): (next: PropertyMap)
    ensures propName in next && next[propName] == Text(value)
    ensures next.Keys == prev.Keys + {propName}
    ensures forall k :: k in prev && k != propName ==> next[k] == prev[k]
  {
    prev[propName := Text(value)]
  }

  /** The map after the user picks `selections` in order. */
  function SetAll(m: PropertyMap, selections: seq<(string, string)>): PropertyMap
    decreases |selections|
  {
    if selections == [] then m
    else SetAll(SetProductProps(m, selections[0].0, selections[0].1), selections[1..])
  }

  function Names(selections: seq<(string, string)>): set<string>
  {
    set k | 0 <= k < |selections| :: selections[k].0
  }

  /** Selections only add keys; a key never selected keeps its starting value. */
  lemma {:induction false} SetAllKeeps(m: PropertyMap, selections: seq<(string, string)>)
    ensures SetAll(m, selections).Keys == m.Keys + Names(selections)
    ensures forall k :: k in m && k !in Names(selections) ==> SetAll(m, selections)[k] == m[k]
    decreases |selections|
  {
    if selections != [] {
      var next := SetProductProps(m, selections[0].0, selections[0].1);
      SetAllKeeps(next, selections[1..]);
      assert Names(selections) == {selections[0].0} + Names(selections[1..]) by {
        forall n | n in Names(selections) ensures n in {selections[0].0} + Names(selections[1..]) {
          var k :| 0 <= k < |selections| && selections[k].0 == n;
          if k > 0 {
            assert selections[1..][k - 1].0 == n;
          }
        }
      }
    }
  }

  /** A new product's map: the TypeScript form always also holds the seed's
      `name` and `values` keys, the JavaScript form only what was selected. */
  lemma NewProductKeys(selections: seq<(string, string)>)
    ensures SetAll(InitialPropertiesTs(None), selections).Keys == {"name", "values"} + Names(selections)
    ensures SetAll(InitialPropertiesJs(None), selections).Keys == Names(selections)
  {
    SetAllKeeps(InitialPropertiesTs(None), selections);
    SetAllKeeps(InitialPropertiesJs(None), selections);
  }

  // ---------------------------------------------------------------------------
  // Images (TypeScript form).

  /** An image entry. Ids are the decimal rendering `${n}` of a number; that
      rendering is injective, so ids are compared here as the numbers. */
  datatype Image = Image(id: nat, src: string)

  /** Ids equal to positions, as loading and uploading produce them. */
  ghost predicate IdsAreIndices(images: seq<Image>)
  {
    forall i :: 0 <= i < |images| ==> images[i].id == i
  }

  /** `existingImages?.map((src, index) => ({ id: `${index}`, src })) || []`. */
  function InitialImages(existing: Option<seq<string>>): (images: seq<Image>)
    ensures IdsAreIndices(images)
    ensures existing.None? ==> images == []
    ensures existing.Some? ==> |images| == |existing.value|
  {
    if existing.None? then []
    else seq(|existing.value|, i requires 0 <= i < |existing.value| => Image(i, existing.value[i]))
  }

  /** `images.map((image) => image.src)`, the list sent on save. */
  function Sources(images: seq<Image>): seq<string>
  {
    seq(|images|, i requires 0 <= i < |images| => images[i].src)
  }

  /** Loading a product and saving it again sends back the same image list. */
  lemma SaveAfterLoad(existing: seq<string>)
    ensures Sources(InitialImages(Some(existing))) == existing
  {
  }

  function CountId(images: seq<Image>, id: nat): nat
  {
    if images == [] then 0 else (if images[0].id == id then 1 else 0) + CountId(images[1..], id)
  }

  /** `deleteImage`: drop every image carrying `id`, keep the others. */
  function DeleteImage(images: seq<Image>, id: nat): (r: seq<Image>)
    ensures forall k :: 0 <= k < |r| ==> r[k].id != id
    ensures forall img :: img in images && img.id != id ==> img in r
    ensures forall img :: img in r ==> img in images
    ensures |r| == |images| - CountId(images, id)
  {
    if images == [] then []
    else (if images[0].id == id then [] else [images[0]]) + DeleteImage(images[1..], id)
  }

  /** Deletion keeps the survivors in their order: it works piece by piece. */
  lemma {:induction false} DeleteImageSplits(a: seq<Image>, b: seq<Image>, id: nat)
    ensures DeleteImage(a + b, id) == DeleteImage(a, id) + DeleteImage(b, id)
    decreases |a|
  {
    if a != [] {
      assert (a + b)[1..] == a[1..] + b;
      DeleteImageSplits(a[1..], b, id);
    } else {
      assert a + b == b;
    }
  }

  /** Deleting an id no image carries changes nothing. */
  lemma {:induction false} DeleteAbsentId(images: seq<Image>, id: nat)
    requires forall k :: 0 <= k < |images| ==> images[k].id != id
    ensures DeleteImage(images, id) == images
    decreases |images|
  {
    if images != [] {
      DeleteAbsentId(images[1..], id);
    }
  }

  /** `uploadImages`: nothing when no file was chosen; otherwise the returned
      links follow the old list, numbered from the old list's length. */
  function UploadImages(images: seq<Image>, fileCount: nat, links: seq<string>): (r: seq<Image>)
    ensures fileCount == 0 ==> r == images
    ensures fileCount > 0 ==> |r| == |images| + |links| && r[..|images|] == images
    ensures fileCount > 0 ==>
      forall i :: 0 <= i < |links| ==> r[|images| + i] == Image(|images| + i, links[i])
  {
    if fileCount == 0 then images
    else images + seq(|links|, i requires 0 <= i < |links| => Image(|images| + i, links[i]))
  }

  /** What an upload sends on the next save: the old sources, then the links. */
  lemma UploadThenSave(images: seq<Image>, fileCount: nat, links: seq<string>)
    requires fileCount > 0
    ensures Sources(UploadImages(images, fileCount, links)) == Sources(images) + links
  {
    var r := UploadImages(images, fileCount, links);
    var sent := Sources(r);
    var expected := Sources(images) + links;
    assert |sent| == |expected|;
    forall k | 0 <= k < |sent| ensures sent[k] == expected[k] {
      if k < |images| {
        assert r[k] == r[..|images|][k];
      } else {
        assert r[|images| + (k - |images|)] == Image(k, links[k - |images|]);
      }
    }
  }

  /** Without deletions ids stay equal to positions, hence unique. */
  lemma UploadKeepsIndexIds(images: seq<Image>, fileCount: nat, links: seq<string>)
    requires IdsAreIndices(images)
    ensures IdsAreIndices(UploadImages(images, fileCount, links))
  {
    var r := UploadImages(images, fileCount, links);
    if fileCount > 0 {
      forall i | 0 <= i < |r| ensures r[i].id == i {
        if i < |images| {
          assert r[i] == r[..|images|][i];
        } else {
          assert r[|images| + (i - |images|)] == Image(i, links[i - |images|]);
        }
      }
    }
  }

  /** After a deletion the next upload can reuse a live id: deleting "0" from
      two images and uploading one file leaves two images with id 1, and a
      later delete of id 1 removes both. */
  lemma IdsCollideAfterDelete(a: string, b: string, c: string)
    ensures var afterUpload := UploadImages(DeleteImage(InitialImages(Some([a, b])), 0), 1, [c]);
            afterUpload == [Image(1, b), Image(1, c)] && DeleteImage(afterUpload, 1) == []
  {
    var loaded := InitialImages(Some([a, b]));
    assert loaded == [Image(0, a), Image(1, b)];
    assert DeleteImage(loaded, 0) == [Image(1, b)] by {
      assert loaded[1..] == [Image(1, b)];
      assert DeleteImage(loaded[1..][1..], 0) == [];
    }
    var afterUpload := UploadImages([Image(1, b)], 1, [c]);
    assert afterUpload == [Image(1, b), Image(1, c)];
    assert afterUpload[1..] == [Image(1, c)];
    assert DeleteImage(afterUpload[1..][1..], 1) == [];
  }

  // ---------------------------------------------------------------------------
  // Saving.

  /** The body posted or put to the products endpoint. The JavaScript form
      sends no `hidden` field. */
  datatype ProductPayload = ProductPayload(
    title: string,
    description: string,
    price: string,
    images: seq<string>,
    category: Option<Category>,
    properties: PropertyMap,
    hidden: Option<bool>)

  /** An existing product (truthy `_id`) is updated with PUT, a new one created
      with POST. */
  datatype ProductRequest = Post(data: ProductPayload) | Put(id: string, data: ProductPayload)

  /** `saveProduct` of the TypeScript form. */
  function SaveProduct(id: Option<string>, title: string, description: string, price: string,
                       images: seq<Image>, category: Option<Category>,
                       properties: PropertyMap, hidden: bool): (req: ProductRequest)
    ensures req.Put? <==> TruthyText(id)
    ensures req.Put? ==> req.id == id.value
    ensures |req.data.images| == |images|
    ensures forall i :: 0 <= i < |images| ==> req.data.images[i] == images[i].src
    ensures req.data.properties == properties && req.data.hidden == Some(hidden)
    ensures req.data.category == category
    ensures req.data.title == title && req.data.description == description && req.data.price == price
  {
    var data := ProductPayload(title, description, price, Sources(images), category, properties, Some(hidden));
    if TruthyText(id) then Put(id.value, data) else Post(data)
  }

  /** `existingImages || []` of the JavaScript form: plain links. */
  function InitialLinks(existing: Option<seq<string>>): seq<string>
  {
    if existing.Some? then existing.value else []
  }

  /** `uploadImages` of the JavaScript form: `[...oldImages, ...res.data.links]`,
      or nothing when no file was chosen. */
  function UploadLinks(images: seq<string>, fileCount: nat, links: seq<string>): (r: seq<string>)
    ensures fileCount == 0 ==> r == images
    ensures fileCount > 0 ==>
      |r| == |images| + |links| && r[..|images|] == images && r[|images|..] == links
  {
    if fileCount == 0 then images else images + links
  }

  /** `saveProduct` of the JavaScript form: the image list and the property
      map go out as they are. */
  function SaveProductJs(id: Option<string>, title: string, description: string, price: string,
                         images: seq<string>, category: Option<Category>,
                         properties: PropertyMap): (req: ProductRequest)
    ensures req.Put? <==> TruthyText(id)
    ensures req.Put? ==> req.id == id.value
    ensures req.data.images == images && req.data.properties == properties
    ensures req.data.category == category
    ensures req.data.title == title && req.data.description == description && req.data.price == price
    ensures req.data.hidden == None
  {
    var data := ProductPayload(title, description, price, images, category, properties, None);
    if TruthyText(id) then Put(id.value, data) else Post(data)
  }

  /** Load, upload, save (JavaScript form): the stored links, then the
      uploaded ones, both in their order. */
  lemma LoadUploadSaveJs(existing: Option<seq<string>>, fileCount: nat, links: seq<string>,
                         id: Option<string>, category: Option<Category>, properties: PropertyMap)
    ensures var sent := SaveProductJs(id, "", "", "", UploadLinks(InitialLinks(existing), fileCount, links),
                                      category, properties).data.images;
            sent == if fileCount == 0 then InitialLinks(existing) else InitialLinks(existing) + links
  {
    var stored := InitialLinks(existing);
    if fileCount > 0 {
      var r := UploadLinks(stored, fileCount, links);
      assert r == r[..|stored|] + r[|stored|..];
    }
  }
}
