/** The gallery back end (galleryController.js): galleries of uploaded
    images and videos, kept by id; a gallery's title and items change on
    the loaded record, which is then saved; deleting an item or a gallery
    also removes the matching files from the upload folder. */
module GalleryStore {
  import opened Text
  import Listing

  /** What the upload middleware reports for one stored file. */
  datatype Upload = Upload(filename: string, mimetype: string, originalname: string)

  /** A gallery item; `kind` is the stored `type`. */
  datatype Item = Item(url: string, kind: string, name: string)

  datatype Gallery = Gallery(title: string, items: seq<Item>)

  /** The names under which the upload middleware stored the files of one
      request, before any handler runs. */
  function UploadFiles(uploads: seq<Upload>): (r: set<string>)
    ensures forall k | 0 <= k < |uploads| :: uploads[k].filename in r
    ensures forall n | n in r :: exists k | 0 <= k < |uploads| :: uploads[k].filename == n
  {
    set k | 0 <= k < |uploads| :: uploads[k].filename
  }

  /** The public address of a stored file. */
  function UrlOf(filename: string): string {
    "/uploads/gallery/" + filename
  }

  /** `url.split("/").pop()`: the text after the last '/'. */
  function LastSegment(url: string): (r: string)
    ensures '/' !in r
  {
    var parts := Split(url, '/');
    parts[|parts| - 1]
  }

  /** The item made for an upload: its address, "video" exactly when the
      MIME type mentions video and "image" otherwise, and the original
      file name. */
  function ItemOf(f: Upload): (it: Item)
    ensures it.url == UrlOf(f.filename)
    ensures it.kind == "video" <==> Contains(f.mimetype, "video")
    ensures it.kind == "video" || it.kind == "image"
    ensures it.name == f.originalname
  {
    Item(UrlOf(f.filename), if Contains(f.mimetype, "video") then "video" else "image", f.originalname)
  }

  /** One item per upload, in upload order. */
  function ItemsOf(uploads: seq<Upload>): (r: seq<Item>)
    ensures |r| == |uploads|
    ensures forall i | 0 <= i < |uploads| :: r[i] == ItemOf(uploads[i])
  {
    seq(|uploads|, i requires 0 <= i < |uploads| => ItemOf(uploads[i]))
  }

  /** The file an item's address names is the stored file it was made
      from; the stored names never hold a '/'. */
  lemma SegmentOfItem(f: Upload)
    requires '/' !in f.filename
    ensures LastSegment(ItemOf(f).url) == f.filename
  {
    var e: string := [];
    var u := UrlOf(f.filename);
    assert u == e + ['/'] + ("uploads" + ['/'] + ("gallery" + ['/'] + f.filename));
    SplitAfterPiece(e, '/', "uploads" + ['/'] + ("gallery" + ['/'] + f.filename));
    SplitAfterPiece("uploads", '/', "gallery" + ['/'] + f.filename);
    SplitAfterPiece("gallery", '/', f.filename);
    SplitNoSeparator(f.filename, '/');
  }

  /** An item is kept by `deleteGalleryItem` unless its file is the one
      named. */
  predicate KeptItem(it: Item, filename: string) {
    LastSegment(it.url) != filename
  }

  /** The items left after deleting the file named: exactly the others, in
      their order. */
  function WithoutFile(items: seq<Item>, filename: string): (r: seq<Item>)
    ensures forall x | x in r :: x in items && LastSegment(x.url) != filename
    ensures forall i | 0 <= i < |items| && LastSegment(items[i].url) != filename :: items[i] in r
    ensures Listing.SubsequenceOf(r, items)
  {
    Listing.FilterIsSubsequence(items, (it: Item) => KeptItem(it, filename));
    Listing.Filter(items, (it: Item) => KeptItem(it, filename))
  }

  /** Deleting the same file twice is deleting it once. */
  lemma WithoutFileIdempotent(items: seq<Item>, filename: string)
    ensures WithoutFile(WithoutFile(items, filename), filename) == WithoutFile(items, filename)
  {
    Listing.FilterIdempotent(items, (it: Item) => KeptItem(it, filename));
  }

  /** The stored files of a gallery's items. */
  function ItemFiles(items: seq<Item>): set<string> {
    set i | 0 <= i < |items| :: LastSegment(items[i].url)
  }

  lemma ItemFilesAppend(items: seq<Item>, it: Item)
    ensures ItemFiles(items + [it]) == ItemFiles(items) + {LastSegment(it.url)}
  {
    var xs := items + [it];
    forall n | n in ItemFiles(xs)
      ensures n in ItemFiles(items) + {LastSegment(it.url)}
    {
      var i :| 0 <= i < |xs| && LastSegment(xs[i].url) == n;
      if i < |items| {
        assert xs[i] == items[i];
      }
    }
    forall n | n in ItemFiles(items)
      ensures n in ItemFiles(xs)
    {
      var i :| 0 <= i < |items| && LastSegment(items[i].url) == n;
      assert xs[i] == items[i];
    }
    assert xs[|items|] == it;
  }

  /** The items made from a request's uploads name exactly the files the
      middleware stored, so deleting the whole gallery afterwards removes
      those files and no other. */
  lemma ItemFilesOfUploads(uploads: seq<Upload>)
    requires forall j | 0 <= j < |uploads| :: '/' !in uploads[j].filename
    ensures ItemFiles(ItemsOf(uploads)) == UploadFiles(uploads)
  {
    var items := ItemsOf(uploads);
    forall n | n in ItemFiles(items)
      ensures n in UploadFiles(uploads)
    {
      var i :| 0 <= i < |items| && LastSegment(items[i].url) == n;
      SegmentOfItem(uploads[i]);
    }
    forall n | n in UploadFiles(uploads)
      ensures n in ItemFiles(items)
    {
      var k :| 0 <= k < |uploads| && uploads[k].filename == n;
      SegmentOfItem(uploads[k]);
      assert LastSegment(items[k].url) == n;
    }
  }

  /** A gallery loaded from the database for editing. */
  class GalleryRecord {
    var title: string
    var items: seq<Item>

    function Saved(): Gallery
      reads this
    {
      Gallery(title, items)
    }

    constructor Load(g: Gallery)
      ensures Saved() == g
    {
      title, items := g.title, g.items;
    }

    /** `updateGallery` on the loaded record: a supplied title replaces the
        old one; the new items follow the old ones, which stay as they are. */
    method Update(newTitle: Option<string>, uploads: seq<Upload>)
      modifies this
      ensures title == if newTitle.Some? then newTitle.value else old(title)
      ensures items == old(items) + ItemsOf(uploads)
    {
      if newTitle.Some? {
        title := newTitle.value;
      }
      items := items + ItemsOf(uploads);
    }

    /** `deleteGalleryItem` on the loaded record. */
    method RemoveFile(filename: string)
      modifies this
      ensures title == old(title)
      ensures items == WithoutFile(old(items), filename)
    {
      items := WithoutFile(items, filename);
    }
  }

  /** The answer of a handler that looks a gallery up by id. */
  datatype Reply = Done | NotFound

  /** The galleries by id, and the names of the files in the upload folder. */
  class Store {
    var galleries: map<string, Gallery>
    var files: set<string>

    constructor (stored: set<string>)
      ensures galleries == map[] && files == stored
    {
      galleries, files := map[], stored;
    }

    /** The route's upload middleware, then `createGallery`: the uploads are
        in the folder; a missing title is empty; one item per upload. The
        database picks an id no gallery has. */
    method Create(id: string, title: string, uploads: seq<Upload>) returns (g: Gallery)
      requires id !in galleries
      modifies this
      ensures g == Gallery(title, ItemsOf(uploads))
      ensures galleries == old(galleries)[id := g] && files == old(files) + UploadFiles(uploads)
    {
      files := files + UploadFiles(uploads);
      g := Gallery(title, ItemsOf(uploads));
      galleries := galleries[id := g];
    }

    /** The route's upload middleware, then `updateGallery`: the uploads
        are in the folder even when the id is unknown; 404 for an unknown
        id; otherwise the record is loaded, updated and saved. */
    method Update(id: string, title: Option<string>, uploads: seq<Upload>) returns (reply: Reply)
      modifies this
      ensures files == old(files) + UploadFiles(uploads)
      ensures reply == NotFound <==> id !in old(galleries)
      ensures reply == NotFound ==> galleries == old(galleries)
      ensures reply == Done ==> galleries == old(galleries)[id := Gallery(
                if title.Some? then title.value else old(galleries)[id].title,
                old(galleries)[id].items + ItemsOf(uploads))]
    {
      files := files + UploadFiles(uploads);
      if id !in galleries {
        return NotFound;
      }
      var record := new GalleryRecord.Load(galleries[id]);
      record.Update(title, uploads);
      galleries := galleries[id := record.Saved()];
      reply := Done;
    }

    /** `deleteGalleryItem` as written: the items of that file go, and the
        file named in the request is removed from the folder whether or
        not any item of the gallery named it. */
    method DeleteItemAsWritten(id: string, filename: string) returns (reply: Reply)
      modifies this
      ensures reply == NotFound <==> id !in old(galleries)
      ensures reply == NotFound ==> galleries == old(galleries) && files == old(files)
      ensures reply == Done ==>
                galleries == old(galleries)[id := old(galleries)[id].(items := WithoutFile(old(galleries)[id].items, filename))]
                && files == old(files) - {filename}
    {
      if id !in galleries {
        return NotFound;
      }
      var record := new GalleryRecord.Load(galleries[id]);
      record.RemoveFile(filename);
      galleries := galleries[id := record.Saved()];
      files := files - {filename};
      reply := Done;
    }

    /** `deleteGalleryItem`, removing a file from the folder only when an
        item of this gallery was made from it. */
    method DeleteItem(id: string, filename: string) returns (reply: Reply)
      modifies this
      ensures reply == NotFound <==> id !in old(galleries)
      ensures reply == NotFound ==> galleries == old(galleries) && files == old(files)
      ensures reply == Done ==>
                galleries == old(galleries)[id := old(galleries)[id].(items := WithoutFile(old(galleries)[id].items, filename))]
                && files == if filename in ItemFiles(old(galleries)[id].items) then old(files) - {filename} else old(files)
    {
      if id !in galleries {
        return NotFound;
      }
      var named := filename in ItemFiles(galleries[id].items);
      var record := new GalleryRecord.Load(galleries[id]);
      record.RemoveFile(filename);
      galleries := galleries[id := record.Saved()];
      if named {
        files := files - {filename};
      }
      reply := Done;
    }

    /** `deleteFullGallery`: every item's file is removed from the folder,
        one item at a time, then the gallery itself. */
    method DeleteFull(id: string) returns (reply: Reply)
      modifies this
      ensures reply == NotFound <==> id !in old(galleries)
      ensures reply == NotFound ==> galleries == old(galleries) && files == old(files)
      ensures reply == Done ==> galleries == old(galleries) - {id}
                                && files == old(files) - ItemFiles(old(galleries)[id].items)
    {
      if id !in galleries {
        return NotFound;
      }
      var items := galleries[id].items;
      var i := 0;
      while i < |items|
        invariant 0 <= i <= |items|
        invariant galleries == old(galleries)
        invariant files == old(files) - ItemFiles(items[..i])
      {
        ItemFilesAppend(items[..i], items[i]);
        assert items[..i + 1] == items[..i] + [items[i]];
        files := files - {LastSegment(items[i].url)};
        i := i + 1;
      }
      assert items[..i] == items;
      galleries := galleries - {id};
      reply := Done;
    }
  }

  /** A file named in a delete request through an encoded '/' ("..%2F" in
      the address) is the file of no item, so the item filter keeps every
      item; `DeleteItemAsWritten` still drops the name from the folder. */
  lemma TraversalNameMatchesNoItem(items: seq<Item>, filename: string)
    requires '/' in filename
    ensures filename !in ItemFiles(items)
    ensures WithoutFile(items, filename) == items
  {
  }

  /** Deleting the file of an item added by an upload removes that item and
      keeps every item of another file. */
  lemma DeleteUploadedItem(g: Gallery, uploads: seq<Upload>, k: nat)
    requires k < |uploads| && forall j | 0 <= j < |uploads| :: '/' !in uploads[j].filename
    ensures var after := WithoutFile(g.items + ItemsOf(uploads), uploads[k].filename);
      ItemOf(uploads[k]) !in after &&
      forall x | x in g.items && LastSegment(x.url) != uploads[k].filename :: x in after
  {
    SegmentOfItem(uploads[k]);
    var all := g.items + ItemsOf(uploads);
    forall x | x in g.items && LastSegment(x.url) != uploads[k].filename
      ensures x in WithoutFile(all, uploads[k].filename)
    {
      var i :| 0 <= i < |g.items| && g.items[i] == x;
      assert all[i] == x;
    }
  }
}
