/**
 * The sell page's listing editor: up to five photos with their preview
 * URLs, a tag list, a specification table and the category selector.
 */
module SellItem {
  import opened Wrappers
  import opened Text
  import opened Types

  /** The most photos a listing may carry. */
  const MaxImages: nat := 5

  /** An object URL handed out by the browser for a picked file. */
  type ObjectUrl = nat

  /** `n` new object URLs, minted from consecutive serial numbers starting at `start`. */
  function FreshUrls(start: nat, n: nat): (r: seq<ObjectUrl>)
    ensures |r| == n
    ensures forall k :: 0 <= k < n ==> r[k] == start + k
  {
    seq(n, k requires 0 <= k < n => start + k)
  }

  /** The elements of a sequence, as a set. */
  function Elements<T>(s: seq<T>): set<T> {
    if s == [] then {} else {s[0]} + Elements(s[1..])
  }

  lemma {:induction false} ElementsMember<T>(s: seq<T>, x: T)
    ensures x in Elements(s) <==> x in s
  {
    if s != [] {
      ElementsMember(s[1..], x);
    }
  }

  lemma {:induction false} ElementsAppend<T>(a: seq<T>, b: seq<T>)
    ensures Elements(a + b) == Elements(a) + Elements(b)
  {
    if a != [] {
      assert (a + b)[1..] == a[1..] + b;
      ElementsAppend(a[1..], b);
    } else {
      assert a + b == b;
    }
  }

  predicate Distinct<T(==)>(s: seq<T>) {
    forall i, j :: 0 <= i < j < |s| ==> s[i] != s[j]
  }

  /** Position `k` after dropping `index`: the old `k` before it, the old `k + 1` from it on. */
  lemma RemoveAtAt<T>(s: seq<T>, index: int, k: int)
    requires 0 <= index < |s| && 0 <= k < |s| - 1
    ensures |RemoveAt(s, index)| == |s| - 1
    ensures RemoveAt(s, index)[k] == if k < index then s[k] else s[k + 1]
  {
  }

  /** Dropping one position of a sequence without repeats drops exactly that element. */
  lemma {:induction false} ElementsRemoveAt<T>(s: seq<T>, index: int)
    requires Distinct(s) && 0 <= index < |s|
    ensures Elements(RemoveAt(s, index)) == Elements(s) - {s[index]}
    ensures Distinct(RemoveAt(s, index))
  {
    var r := RemoveAt(s, index);
    forall x | x in Elements(r) ensures x in Elements(s) - {s[index]} {
      ElementsMember(r, x);
      ElementsMember(s, x);
      var k :| 0 <= k < |r| && r[k] == x;
      RemoveAtAt(s, index, k);
    }
    forall x | x in Elements(s) - {s[index]} ensures x in Elements(r) {
      ElementsMember(r, x);
      ElementsMember(s, x);
      var k :| 0 <= k < |s| && s[k] == x;
      if k < index { RemoveAtAt(s, index, k); } else { RemoveAtAt(s, index, k - 1); }
    }
    forall p, q | 0 <= p < q < |r| ensures r[p] != r[q] {
      RemoveAtAt(s, index, p);
      RemoveAtAt(s, index, q);
    }
  }

  /** `s.filter((_, i) => i !== index)`: drops position `index`, or nothing when it is out of range. */
  function RemoveAt<T>(s: seq<T>, index: int): (r: seq<T>)
    ensures 0 <= index < |s| ==> r == s[..index] + s[index + 1..]
    ensures !(0 <= index < |s|) ==> r == s
  {
    if s == [] then []
    else
      var rest := RemoveAt(s[1..], index - 1);
      if index == 0 then rest else [s[0]] + rest
  }

  /** `tags.filter(tag => tag !== t)`: the other tags, in their order. */
  function WithoutTag(tags: seq<string>, t: string): (r: seq<string>)
    ensures forall x :: x in r <==> x in tags && x != t
    ensures forall x :: multiset(r)[x] == if x == t then 0 else multiset(tags)[x]
  {
    if tags == [] then []
    else
      var rest := WithoutTag(tags[1..], t);
      assert tags == [tags[0]] + tags[1..];
      if tags[0] == t then rest else [tags[0]] + rest
  }

  /** Removing a tag from a concatenation removes it from each part: the survivors keep their order. */
  lemma {:induction false} WithoutTagAppend(a: seq<string>, b: seq<string>, t: string)
    ensures WithoutTag(a + b, t) == WithoutTag(a, t) + WithoutTag(b, t)
  {
    if a != [] {
      assert (a + b)[1..] == a[1..] + b;
      WithoutTagAppend(a[1..], b, t);
    } else {
      assert a + b == b;
    }
  }

  /** Removing a tag that is not there changes nothing. */
  lemma {:induction false} WithoutAbsentTag(tags: seq<string>, t: string)
    requires t !in tags
    ensures WithoutTag(tags, t) == tags
  {
    if tags != [] {
      WithoutAbsentTag(tags[1..], t);
      assert tags == [tags[0]] + tags[1..];
    }
  }

  /** `addTag`'s guard: the trimmed input is non-empty and not already a tag. */
  predicate TagAccepted(tags: seq<string>, input: string) {
    Trim(input) != "" && Trim(input) !in tags
  }

  /** What `addTag` stores: the trimmed, lower-cased input. */
  function StoredTag(input: string): string {
    ToLower(Trim(input))
  }

  /**
   * The duplicate check compares the trimmed input before lower-casing, so
   * an input with an upper-case letter passes it again after being added.
   */
  lemma MixedCaseTagAcceptedTwice(tags: seq<string>, input: string)
    requires TagAccepted(tags, input) && StoredTag(input) != Trim(input)
    ensures TagAccepted(tags + [StoredTag(input)], input)
  {
  }

  /** An input already in lower case is refused the second time. */
  lemma LowerCaseTagRefusedTwice(tags: seq<string>, input: string)
    requires TagAccepted(tags, input) && StoredTag(input) == Trim(input)
    ensures !TagAccepted(tags + [StoredTag(input)], input)
  {
    assert (tags + [StoredTag(input)])[|tags|] == Trim(input);
  }

  /** Entering "Arduino" twice stores "arduino" twice. */
  lemma ArduinoTwice()
    ensures TagAccepted([], "Arduino") && StoredTag("Arduino") == "arduino"
    ensures TagAccepted(["arduino"], "Arduino")
  {
    TrimmedFixed("Arduino");
    assert ToLower("Arduino") == "arduino";
  }

  /** A stored tag is non-empty, has no surrounding white space and is in lower case. */
  predicate TagWellFormed(t: string) {
    t != "" && Trimmed(t) && ToLower(t) == t
  }

  predicate TagsWellFormed(tags: seq<string>) {
    forall t :: t in tags ==> TagWellFormed(t)
  }

  /** Appending a well-formed tag keeps the list well formed. */
  lemma TagsWellFormedAppend(tags: seq<string>, t: string)
    requires TagsWellFormed(tags) && TagWellFormed(t)
    ensures TagsWellFormed(tags + [t])
  {
  }

  /** Every tag `addTag` can store is well formed. */
  lemma StoredTagWellFormed(input: string)
    requires Trim(input) != ""
    ensures TagWellFormed(StoredTag(input))
  {
    ToLowerTrimmed(Trim(input));
    ToLowerIdempotent(Trim(input));
  }

  /** A stored specification entry: key and value are trimmed and non-empty. */
  predicate SpecEntryWellFormed(key: string, value: string) {
    key != "" && Trimmed(key) && value != "" && Trimmed(value)
  }

  /** Every entry of the table is well formed. */
  predicate SpecsWellFormed(m: map<string, string>) {
    forall k :: k in m ==> SpecEntryWellFormed(k, m[k])
  }

  /** Storing a well-formed entry keeps the table well formed. */
  lemma SpecsWellFormedUpdate(m: map<string, string>, key: string, value: string)
    requires SpecsWellFormed(m) && SpecEntryWellFormed(key, value)
    ensures SpecsWellFormed(m[key := value])
  {
    var m' := m[key := value];
    forall k | k in m' ensures SpecEntryWellFormed(k, m'[k]) {
      if k != key { assert m'[k] == m[k]; }
    }
  }

  /** The key and value drafts under the specification inputs. */
  datatype SpecDraft = SpecDraft(key: string, value: string) {
    /** Both inputs hold something besides white space. */
    predicate Complete() {
      Trim(key) != "" && Trim(value) != ""
    }
  }

  /**
   * The photo half of the editor's invariant: at most five photos, one
   * preview URL per photo in the same order, preview URLs distinct and
   * already minted, and the live URLs exactly those on show.
   */
  ghost predicate ImagesOk(images: seq<ImageFile>, urls: seq<ObjectUrl>, nextUrl: nat, liveUrls: set<ObjectUrl>) {
    && |images| <= MaxImages
    && |urls| == |images|
    && Distinct(urls)
    && (forall i :: 0 <= i < |urls| ==> urls[i] < nextUrl)
    && liveUrls == Elements(urls)
  }

  /** The editor's state. */
  class ListingForm {
    var formData: ListingFormData
    var currentTag: string
    var currentSpec: SpecDraft
    var imagePreviewUrls: seq<ObjectUrl>
    /** The serial number of the next object URL the browser hands out. */
    var nextUrl: nat
    /** The object URLs created and not yet revoked. */
    ghost var liveUrls: set<ObjectUrl>

    /** The photo half of the invariant, on the current fields. */
    ghost predicate ImagesValid()
      reads this
    {
      ImagesOk(formData.images, imagePreviewUrls, nextUrl, liveUrls)
    }

    /** Only well-formed tags and specification entries are ever stored. */
    ghost predicate EntriesValid()
      reads this
    {
      TagsWellFormed(formData.tags) && SpecsWellFormed(formData.specifications)
    }

    ghost predicate Valid()
      reads this
    {
      ImagesValid() && EntriesValid()
    }

    /**
     * The empty form, with the location and contact details taken from the
     * user signed in at mount; with nobody signed in they start empty.
     */
    constructor (user: Option<User>)
      ensures Valid()
      ensures formData == ListingFormData("", "", 0.0, None, "good", "", "", [], map[], [],
                                          if user.Some? then user.value.location.GetOr("") else "",
                                          ContactInfo(if user.Some? then user.value.email else "",
                                                      Some(if user.Some? then user.value.phone.GetOr("") else ""),
                                                      ByEmail, Some("")))
      ensures currentTag == "" && currentSpec == SpecDraft("", "") && imagePreviewUrls == []
      ensures nextUrl == 0
    {
      var location, email, phone := "", "", "";
      if user.Some? {
        location, email, phone := user.value.location.GetOr(""), user.value.email, user.value.phone.GetOr("");
      }
      formData := ListingFormData("", "", 0.0, None, "good", "", "", [], map[], [], location,
                                  ContactInfo(email, Some(phone), ByEmail, Some("")));
      currentTag := "";
      currentSpec := SpecDraft("", "");
      imagePreviewUrls := [];
      nextUrl := 0;
      liveUrls := {};
    }

    /**
     * `handleImageUpload`: refuses the whole selection when it would take
     * the listing past five photos; otherwise appends the files and one
     * fresh preview URL for each.
     */
    method UploadImages(files: seq<ImageFile>) returns (accepted: bool)
      requires Valid()
      modifies this
      ensures Valid()
      ensures accepted <==> |files| + |old(formData.images)| <= MaxImages
      ensures accepted ==> formData == old(formData).(images := old(formData.images) + files)
      ensures accepted ==> imagePreviewUrls == old(imagePreviewUrls) + FreshUrls(old(nextUrl), |files|)
      ensures accepted ==> liveUrls == old(liveUrls) + Elements(FreshUrls(old(nextUrl), |files|))
      ensures !accepted ==> formData == old(formData) && imagePreviewUrls == old(imagePreviewUrls) && liveUrls == old(liveUrls)
      ensures currentTag == old(currentTag) && currentSpec == old(currentSpec)
      ensures nextUrl == if accepted then old(nextUrl) + |files| else old(nextUrl)
    {
      if |files| + |formData.images| > MaxImages {
        return false;
      }
      var urls := FreshUrls(nextUrl, |files|);
      ElementsAppend(imagePreviewUrls, urls);
      formData := formData.(images := formData.images + files);
      imagePreviewUrls := imagePreviewUrls + urls;
      liveUrls := liveUrls + Elements(urls);
      nextUrl := nextUrl + |files|;
      accepted := true;
    }

    /**
     * `removeImage`: drops position `index` from the photos and from the
     * previews and revokes that preview's URL; an index out of range
     * changes nothing.
     */
    method RemoveImage(index: int)
      requires Valid()
      modifies this
      ensures Valid()
      ensures nextUrl == old(nextUrl)
      ensures formData == old(formData).(images := RemoveAt(old(formData.images), index))
      ensures imagePreviewUrls == RemoveAt(old(imagePreviewUrls), index)
      ensures liveUrls == if 0 <= index < |old(imagePreviewUrls)| then old(liveUrls) - {old(imagePreviewUrls)[index]} else old(liveUrls)
      ensures currentTag == old(currentTag) && currentSpec == old(currentSpec)
    {
      if 0 <= index < |imagePreviewUrls| {
        ElementsRemoveAt(imagePreviewUrls, index);
        liveUrls := liveUrls - {imagePreviewUrls[index]};
      }
      formData := formData.(images := RemoveAt(formData.images, index));
      imagePreviewUrls := RemoveAt(imagePreviewUrls, index);
    }

    /** Typing into the tag input. */
    method EditTag(text: string)
      requires Valid()
      modifies this
      ensures Valid()
      ensures nextUrl == old(nextUrl)
      ensures currentTag == text
      ensures formData == old(formData) && currentSpec == old(currentSpec) && imagePreviewUrls == old(imagePreviewUrls)
    {
      currentTag := text;
    }

    /**
     * `addTag`: when the trimmed input is non-empty and not yet among the
     * tags, appends it trimmed and lower-cased and clears the input;
     * otherwise changes nothing.
     */
    method AddTag()
      requires Valid()
      modifies this
      ensures Valid()
      ensures nextUrl == old(nextUrl)
      ensures TagAccepted(old(formData.tags), old(currentTag)) ==>
                formData == old(formData).(tags := old(formData.tags) + [StoredTag(old(currentTag))]) && currentTag == ""
      ensures !TagAccepted(old(formData.tags), old(currentTag)) ==>
                formData == old(formData) && currentTag == old(currentTag)
      ensures currentSpec == old(currentSpec) && imagePreviewUrls == old(imagePreviewUrls)
    {
      if TagAccepted(formData.tags, currentTag) {
        var tag := StoredTag(currentTag);
        StoredTagWellFormed(currentTag);
        TagsWellFormedAppend(formData.tags, tag);
        var before := formData;
        formData := before.(tags := before.tags + [tag]);
        assert formData.images == before.images && formData.specifications == before.specifications;
        currentTag := "";
      }
    }

    /** `removeTag`: drops every tag equal to `t`. */
    method RemoveTag(t: string)
      requires Valid()
      modifies this
      ensures Valid()
      ensures nextUrl == old(nextUrl)
      ensures formData == old(formData).(tags := WithoutTag(old(formData.tags), t))
      ensures currentTag == old(currentTag) && currentSpec == old(currentSpec) && imagePreviewUrls == old(imagePreviewUrls)
    {
      formData := formData.(tags := WithoutTag(formData.tags, t));
    }

    /** Typing into the specification key input. */
    method EditSpecKey(key: string)
      requires Valid()
      modifies this
      ensures Valid()
      ensures nextUrl == old(nextUrl)
      ensures currentSpec == old(currentSpec).(key := key)
      ensures formData == old(formData) && currentTag == old(currentTag) && imagePreviewUrls == old(imagePreviewUrls)
    {
      currentSpec := currentSpec.(key := key);
    }

    /** Typing into the specification value input. */
    method EditSpecValue(value: string)
      requires Valid()
      modifies this
      ensures Valid()
      ensures nextUrl == old(nextUrl)
      ensures currentSpec == old(currentSpec).(value := value)
      ensures formData == old(formData) && currentTag == old(currentTag) && imagePreviewUrls == old(imagePreviewUrls)
    {
      currentSpec := currentSpec.(value := value);
    }

    /**
     * `addSpecification`: when the trimmed key and value are both
     * non-empty, maps the trimmed key to the trimmed value, replacing any
     * earlier entry, and clears both inputs; otherwise changes nothing.
     */
    method AddSpecification()
      requires Valid()
      modifies this
      ensures Valid()
      ensures nextUrl == old(nextUrl)
      ensures old(currentSpec).Complete() ==>
                && formData == old(formData).(specifications := old(formData.specifications)[Trim(old(currentSpec).key) := Trim(old(currentSpec).value)])
                && currentSpec == SpecDraft("", "")
      ensures !old(currentSpec).Complete() ==> formData == old(formData) && currentSpec == old(currentSpec)
      ensures currentTag == old(currentTag) && imagePreviewUrls == old(imagePreviewUrls)
    {
      if currentSpec.Complete() {
        var key, value := Trim(currentSpec.key), Trim(currentSpec.value);
        SpecsWellFormedUpdate(formData.specifications, key, value);
        var before := formData;
        formData := before.(specifications := before.specifications[key := value]);
        assert formData.tags == before.tags && formData.images == before.images;
        currentSpec := SpecDraft("", "");
      }
    }

    /** `removeSpecification`: deletes the entry for `key`, if any, and no other. */
    method RemoveSpecification(key: string)
      requires Valid()
      modifies this
      ensures Valid()
      ensures nextUrl == old(nextUrl)
      ensures formData == old(formData).(specifications := old(formData.specifications) - {key})
      ensures currentTag == old(currentTag) && currentSpec == old(currentSpec) && imagePreviewUrls == old(imagePreviewUrls)
    {
      formData := formData.(specifications := formData.specifications - {key});
    }

    /** Choosing a category clears the subcategory. */
    method SelectCategory(category: string)
      requires Valid()
      modifies this
      ensures Valid()
      ensures nextUrl == old(nextUrl)
      ensures formData == old(formData).(category := category, subcategory := "")
      ensures currentTag == old(currentTag) && currentSpec == old(currentSpec) && imagePreviewUrls == old(imagePreviewUrls)
    {
      formData := formData.(category := category, subcategory := "");
    }

    method SelectSubcategory(subcategory: string)
      requires Valid()
      modifies this
      ensures Valid()
      ensures nextUrl == old(nextUrl)
      ensures formData == old(formData).(subcategory := subcategory)
      ensures currentTag == old(currentTag) && currentSpec == old(currentSpec) && imagePreviewUrls == old(imagePreviewUrls)
    {
      formData := formData.(subcategory := subcategory);
    }
  }
}
