/** Home-screen banners: the file-name helper, upload, the two listings
    in display order, update and delete. */
module BannerController {
  import opened Common
  import opened Text
  import opened Store

  // ---------------------------------------------------------------------
  // The file-name helper

  /** `getFilename`: `null` for a missing or empty path, the text after the
      last `/` when there is one, and the path itself otherwise. */
  function GetFilename(path: Option<string>): (r: Option<string>)
    ensures !Present(path) ==> r.None?
    ensures Present(path) && '/' !in path.value ==> r == path
    ensures Present(path) && '/' in path.value ==>
              && r.Some? && '/' !in r.value
              && exists prefix: string :: path.value == prefix + r.value && |prefix| > 0 && prefix[|prefix| - 1] == '/'
  {
    if !Present(path) then None
    else if '/' in path.value then
      LastSegmentShape(path.value, '/');
      Some(LastSegment(path.value, '/'))
    else path
  }

  /** Applying the helper to its own non-empty result changes nothing, so
      cleaning a stored name a second time is harmless. */
  lemma GetFilenameIdempotent(path: Option<string>)
    requires Present(GetFilename(path))
    ensures GetFilename(GetFilename(path)) == GetFilename(path)
  {
    if Present(path) && '/' in path.value {
      assert '/' !in GetFilename(path).value;
    }
  }

  /** Without a non-empty last segment it is not: a path ending in `/`
      yields the empty name, which the helper then maps to `null`. */
  lemma GetFilenameTrailingSlash()
    ensures GetFilename(Some("banners/")) == Some("")
    ensures GetFilename(GetFilename(Some("banners/"))) == None
  {
    var parts := Split("banners/", '/');
    assert "banners/" == "banners" + ['/'] + "";
    SplitFree("banners", '/');
    SplitPrefix("banners", "", '/');
    SplitFree("", '/');
    assert parts == ["banners", ""];
  }

  // ---------------------------------------------------------------------
  // Upload

  /** `uploadBanner`: 400 without a file; otherwise an active banner named
      after the upload, with order 0 unless a non-zero order is given, is
      appended and returned with its image cleaned once more. */
  method UploadBanner(db: Database, id: Id, file: Option<string>, title: Option<string>,
                      description: Option<string>, order: Option<int>) returns (reply: Reply, shown: Option<Banner>)
    modifies db`banners
    ensures file.None? ==>
              reply == Reply(400, "No banner image file provided") && shown.None? && db.banners == old(db.banners)
    ensures file.Some? ==>
              var stored := Banner(id, GetFilename(file), title, description,
                                   if order.Some? then order.value else 0, true);
              && reply == Reply(201, "Banner uploaded successfully")
              && db.banners == old(db.banners) + [stored]
              && shown == Some(stored.(image := GetFilename(stored.image)))
    ensures file.Some? && Present(GetFilename(file)) ==> shown == Some(db.banners[|db.banners| - 1])
  {
    if file.None? {
      return Reply(400, "No banner image file provided"), None;
    }
    var filename := GetFilename(file);
    var banner := Banner(id, filename, title, description, if order.Some? then order.value else 0, true);
    db.banners := db.banners + [banner];
    var response := banner;
    response := response.(image := GetFilename(response.image));
    if Present(filename) {
      GetFilenameIdempotent(file);
    }
    reply, shown := Reply(201, "Banner uploaded successfully"), Some(response);
  }

  // ---------------------------------------------------------------------
  // Listings in display order

  predicate SortedByOrder(bs: seq<Banner>)
  {
    forall i, j :: 0 <= i < j < |bs| ==> bs[i].order <= bs[j].order
  }

  /** Insert one banner into a list sorted by order, after the banners of
      equal order. */
  function Insert(b: Banner, bs: seq<Banner>): (r: seq<Banner>)
    ensures |r| == |bs| + 1
  {
    if bs == [] then [b]
    else if b.order < bs[0].order then [b] + bs
    else [bs[0]] + Insert(b, bs[1..])
  }

  /** Insertion adds exactly the one banner. */
  lemma {:induction false} InsertMultiset(b: Banner, bs: seq<Banner>)
    ensures multiset(Insert(b, bs)) == multiset(bs) + multiset{b}
  {
    if bs != [] && b.order >= bs[0].order {
      assert bs == [bs[0]] + bs[1..];
      InsertMultiset(b, bs[1..]);
    }
  }

  /** A lower bound on the orders of the list and of the new banner bounds
      the result. */
  lemma {:induction false} InsertLowerBound(b: Banner, bs: seq<Banner>, lo: int)
    requires lo <= b.order
    requires forall i :: 0 <= i < |bs| ==> lo <= bs[i].order
    ensures forall i :: 0 <= i < |Insert(b, bs)| ==> lo <= Insert(b, bs)[i].order
  {
    if bs != [] && b.order >= bs[0].order {
      InsertLowerBound(b, bs[1..], lo);
    }
  }

  /** Insertion keeps a sorted list sorted and adds exactly the one banner. */
  lemma {:induction false} InsertSorted(b: Banner, bs: seq<Banner>)
    requires SortedByOrder(bs)
    ensures SortedByOrder(Insert(b, bs))
    ensures multiset(Insert(b, bs)) == multiset(bs) + multiset{b}
  {
    InsertMultiset(b, bs);
    if bs != [] && b.order >= bs[0].order {
      var tail := bs[1..];
      InsertSorted(b, tail);
      InsertLowerBound(b, tail, bs[0].order);
      assert Insert(b, bs) == [bs[0]] + Insert(b, tail);
    }
  }

  /** `sort({ order: 1 })`: a permutation of the banners in ascending order. */
  function SortByOrder(bs: seq<Banner>): (r: seq<Banner>)
    ensures SortedByOrder(r)
    ensures multiset(r) == multiset(bs)
  {
    if bs == [] then []
    else
      assert bs == [bs[0]] + bs[1..];
      var rest := SortByOrder(bs[1..]);
      InsertSorted(bs[0], rest);
      Insert(bs[0], rest)
  }

  /** The banners a query selects: all, or only the active ones, in stored order. */
  function Select(banners: seq<Banner>, activeOnly: bool): (r: seq<Banner>)
    ensures forall b :: b in r <==> b in banners && (activeOnly ==> b.isActive)
    ensures !activeOnly ==> r == banners
    ensures |r| <= |banners|
  {
    if banners == [] then []
    else if !activeOnly || banners[0].isActive then [banners[0]] + Select(banners[1..], activeOnly)
    else Select(banners[1..], activeOnly)
  }

  /** Every banner with its image passed through the helper. */
  function CleanImages(bs: seq<Banner>): (r: seq<Banner>)
    ensures |r| == |bs|
    ensures forall i :: 0 <= i < |bs| ==> r[i] == bs[i].(image := GetFilename(bs[i].image))
  {
    seq(|bs|, i requires 0 <= i < |bs| => bs[i].(image := GetFilename(bs[i].image)))
  }

  /** Cleaning leaves the sort key alone, so it commutes with sorting: the
      listing may clean before it sorts. */
  lemma {:induction false} CleanKeepsOrders(bs: seq<Banner>)
    ensures forall i :: 0 <= i < |bs| ==> CleanImages(bs)[i].order == bs[i].order
    ensures SortedByOrder(bs) ==> SortedByOrder(CleanImages(bs))
  {
  }

  /** `getAllBanners` (`activeOnly` false) and `getActiveBanners` (true):
      the selected banners, each exactly once, with cleaned images, in
      ascending order. */
  function Listing(banners: seq<Banner>, activeOnly: bool): (views: seq<Banner>)
    ensures SortedByOrder(views)
    ensures multiset(views) == multiset(CleanImages(Select(banners, activeOnly)))
    ensures |views| == |Select(banners, activeOnly)|
    ensures activeOnly ==> forall i :: 0 <= i < |views| ==> views[i].isActive
  {
    var cleaned := CleanImages(Select(banners, activeOnly));
    var views := SortByOrder(cleaned);
    assert |views| == |multiset(views)| == |multiset(cleaned)| == |cleaned|;
    SortedActive(banners, activeOnly, views);
    views
  }

  lemma SortedActive(banners: seq<Banner>, activeOnly: bool, views: seq<Banner>)
    requires multiset(views) == multiset(CleanImages(Select(banners, activeOnly)))
    ensures activeOnly ==> forall i :: 0 <= i < |views| ==> views[i].isActive
  {
    var selected := Select(banners, activeOnly);
    var cleaned := CleanImages(selected);
    if activeOnly {
      forall i | 0 <= i < |views| ensures views[i].isActive {
        assert views[i] in multiset(cleaned);
        var k :| 0 <= k < |cleaned| && cleaned[k] == views[i];
        assert selected[k] in selected;
      }
    }
  }

  // ---------------------------------------------------------------------
  // Update and delete

  /** The body of an update: each given key is set, whatever its value. */
  datatype BannerEdit = BannerEdit(image: Option<string>, title: Option<string>, description: Option<string>,
                                   order: Option<int>, isActive: Option<bool>)

  function Edited(b: Banner, edit: BannerEdit, file: Option<string>): (c: Banner)
    ensures c.id == b.id
    ensures c.image == (if file.Some? then GetFilename(file) else if edit.image.Some? then edit.image else b.image)
    ensures c.title == (if edit.title.Some? then edit.title else b.title)
    ensures c.description == (if edit.description.Some? then edit.description else b.description)
    ensures c.order == (if edit.order.Some? then edit.order.value else b.order)
    ensures c.isActive == (if edit.isActive.Some? then edit.isActive.value else b.isActive)
  {
    Banner(b.id,
           if file.Some? then GetFilename(file) else if edit.image.Some? then edit.image else b.image,
           if edit.title.Some? then edit.title else b.title,
           if edit.description.Some? then edit.description else b.description,
           if edit.order.Some? then edit.order.value else b.order,
           if edit.isActive.Some? then edit.isActive.value else b.isActive)
  }

  datatype BannerChange = BannerChange(reply: Reply, banners: seq<Banner>, shown: Option<Banner>)

  /** `updateBanner`: an uploaded file's name overrides any image in the
      body; 404 for a missing banner; the updated banner is returned with
      its image cleaned. */
  function UpdateBanner(banners: seq<Banner>, id: Id, edit: BannerEdit, file: Option<string>): (r: BannerChange)
    ensures FindBanner(banners, id).None? ==> r == BannerChange(Reply(404, "Banner not found"), banners, None)
    ensures FindBanner(banners, id).Some? ==>
              var i := FindBanner(banners, id).value;
              var c := Edited(banners[i], edit, file);
              && r.reply == Reply(200, "Banner updated successfully")
              && r.banners == banners[i := c]
              && r.shown == Some(c.(image := GetFilename(c.image)))
  {
    match FindBanner(banners, id)
    case None => BannerChange(Reply(404, "Banner not found"), banners, None)
    case Some(i) =>
      var c := Edited(banners[i], edit, file);
      BannerChange(Reply(200, "Banner updated successfully"), banners[i := c], Some(c.(image := GetFilename(c.image))))
  }

  /** `deleteBanner`: 404 for a missing banner; otherwise it is removed.
      `unlinkFails` says whether deleting its image file fails; the failure
      is swallowed and changes neither the reply nor the removal. */
  method DeleteBanner(db: Database, id: Id, unlinkFails: bool) returns (reply: Reply)
    modifies db`banners
    ensures FindBanner(old(db.banners), id).None? ==>
              reply == Reply(404, "Banner not found") && db.banners == old(db.banners)
    ensures FindBanner(old(db.banners), id).Some? ==>
              var i := FindBanner(old(db.banners), id).value;
              && reply == Reply(200, "Banner deleted successfully")
              && db.banners == old(db.banners)[..i] + old(db.banners)[i + 1..]
  {
    var found := FindBanner(db.banners, id);
    if found.None? {
      return Reply(404, "Banner not found");
    }
    var i := found.value;
    db.banners := db.banners[..i] + db.banners[i + 1..];
    reply := Reply(200, "Banner deleted successfully");
  }
}
