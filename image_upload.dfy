/**
 * The image list of src/components/ImageUpload.js: the remaining-slot check and append of a
 * file selection, the removal of one image, and the drag-and-drop move. Each handler either
 * hands a new list to `onImagesChange` (`Some`) or leaves the list as it is (`None`).
 */
module ImageUpload {
  import opened Wrappers

  /** The per-file size limit, 5 MB. */
  const MaxFileSize: int := 5 * 1024 * 1024

  /** A selected file: its name, MIME type and size in bytes. */
  datatype File = File(name: string, mimeType: string, size: int)

  /** `file.type.startsWith('image/')`. */
  predicate IsImageType(t: string)
  {
    |t| >= 6 && t[..6] == "image/"
  }

  /**
   * `uploadSingleFile`: a file that is not an image or is over 5 MB fails without a request;
   * otherwise the result is the server's reply to the upload POST, its `imageUrl` when the reply
   * says success and `None` when it does not or the request fails.
   */
  function UploadSingle(f: File, reply: Option<string>): (r: Option<string>)
    ensures r.Some? <==> IsImageType(f.mimeType) && f.size <= MaxFileSize && reply.Some?
    ensures r.Some? ==> r == reply
  {
    if !IsImageType(f.mimeType) then None
    else if f.size > MaxFileSize then None
    else reply
  }

  /** `fileArray.map(uploadSingleFile)` with the server's reply for each file. */
  function UploadAll(files: seq<File>, replies: seq<Option<string>>): (r: seq<Option<string>>)
    requires |replies| == |files|
    ensures |r| == |files|
    ensures forall i :: 0 <= i < |files| ==> r[i] == UploadSingle(files[i], replies[i])
  {
    seq(|files|, i requires 0 <= i < |files| => UploadSingle(files[i], replies[i]))
  }

  /** `uploadResults.filter(result => result.success).map(result => result.imageUrl)`, in order. */
  function Successful(results: seq<Option<string>>): (r: seq<string>)
    ensures |r| <= |results|
    ensures r == [] <==> forall i :: 0 <= i < |results| ==> results[i].None?
    ensures forall k :: 0 <= k < |r| ==> Some(r[k]) in results
  {
    if results == [] then []
    else
      var rest := Successful(results[1..]);
      assert forall x :: x in results[1..] ==> x in results;
      assert rest == [] <==> forall i :: 0 <= i < |results| - 1 ==> results[1..][i].None?;
      assert (forall i :: 0 <= i < |results| ==> results[i].None?) <==>
             results[0].None? && forall i :: 0 <= i < |results| - 1 ==> results[1..][i].None? by {
        forall i | 0 <= i < |results| - 1 ensures results[1..][i] == results[i + 1] {}
      }
      match results[0]
      case Some(url) => [url] + rest
      case None => rest
  }

  /** Successful uploads keep the order of the files: the filter splits over concatenation. */
  lemma {:induction false} SuccessfulConcat(a: seq<Option<string>>, b: seq<Option<string>>)
    ensures Successful(a + b) == Successful(a) + Successful(b)
  {
    if a == [] {
      assert a + b == b;
    } else {
      assert (a + b)[0] == a[0];
      assert (a + b)[1..] == a[1..] + b;
      SuccessfulConcat(a[1..], b);
    }
  }

  /**
   * `handleFileSelect`. No files: nothing happens. More files than `maxImages - images.length`
   * (a negative count when the list is already over the limit): rejected, list unchanged.
   * Otherwise every file is uploaded and, when at least one upload succeeded, the new list is the
   * old one followed by the successful URLs in file order; when none did, the list is unchanged.
   * An accepted selection never takes the list over `maxImages` (5 when the parent passes none).
   */
  function HandleFileSelect(images: seq<string>, maxImages: int, files: seq<File>, replies: seq<Option<string>>)
    : (r: Option<seq<string>>)
    requires |replies| == |files|
    ensures files == [] ==> r.None?
    ensures |files| > maxImages - |images| ==> r.None?
    ensures r.Some? <==> (files != [] && |files| <= maxImages - |images| &&
                          exists i :: 0 <= i < |files| && UploadSingle(files[i], replies[i]).Some?)
    ensures r.Some? ==> r.value == images + Successful(UploadAll(files, replies))
    ensures r.Some? ==> |images| < |r.value| <= |images| + |files| && |r.value| <= maxImages
  {
    if files == [] then None
    else if |files| > maxImages - |images| then None
    else
      var uploaded := Successful(UploadAll(files, replies));
      if |uploaded| > 0 then Some(images + uploaded) else None
  }

  /** `images.filter((_, i) => i !== index)`. */
  function WithoutIndex(s: seq<string>, index: int): (r: seq<string>)
    ensures |r| <= |s|
    decreases |s|
  {
    if s == [] then []
    else WithoutIndex(s[..|s| - 1], index) + (if |s| - 1 == index then [] else [s[|s| - 1]])
  }

  /**
   * The filter drops exactly position `index` and keeps the other images in their order;
   * an index outside the list drops nothing.
   */
  lemma {:induction false} WithoutIndexIsSplice(s: seq<string>, index: int)
    ensures 0 <= index < |s| ==> WithoutIndex(s, index) == s[..index] + s[index + 1..]
    ensures !(0 <= index < |s|) ==> WithoutIndex(s, index) == s
    decreases |s|
  {
    if s != [] {
      var init := s[..|s| - 1];
      WithoutIndexIsSplice(init, index);
      if index == |s| - 1 {
        assert s[..index] == init && s[index + 1..] == [];
      } else if 0 <= index < |s| - 1 {
        assert init[..index] == s[..index];
        assert init[index + 1..] + [s[|s| - 1]] == s[index + 1..];
      } else {
        assert init + [s[|s| - 1]] == s;
      }
    }
  }

  /**
   * `removeImage`: the image file is deleted on the server first; only when that succeeds is
   * the list replaced by the list without position `index`.
   */
  function RemoveImage(images: seq<string>, index: int, serverDeleted: bool): (r: Option<seq<string>>)
    ensures r.Some? <==> serverDeleted
    ensures r.Some? && 0 <= index < |images| ==> r.value == images[..index] + images[index + 1..]
    ensures r.Some? && !(0 <= index < |images|) ==> r.value == images
  {
    WithoutIndexIsSplice(images, index);
    if serverDeleted then Some(WithoutIndex(images, index)) else None
  }

  /**
   * `reorderImages(from, to)`: on a copy, `splice(from, 1)` takes the image out and
   * `splice(to, 0, moved)` puts it back at `to`. The list keeps its length and its images, the
   * moved image lands at `to`, and all the others keep their relative order.
   */
  function Reorder(images: seq<string>, from: int, to: int): (r: seq<string>)
    requires 0 <= from < |images| && 0 <= to < |images|
    ensures |r| == |images|
    ensures multiset(r) == multiset(images)
    ensures r[to] == images[from]
    ensures r[..to] + r[to + 1..] == images[..from] + images[from + 1..]
  {
    var rest := images[..from] + images[from + 1..];
    var r := rest[..to] + [images[from]] + rest[to..];
    assert images == images[..from] + [images[from]] + images[from + 1..];
    assert rest == rest[..to] + rest[to..];
    assert r[..to] == rest[..to] && r[to + 1..] == rest[to..];
    calc {
      multiset(r);
      multiset(rest[..to]) + multiset([images[from]]) + multiset(rest[to..]);
      multiset(rest) + multiset([images[from]]);
      multiset(images[..from]) + multiset(images[from + 1..]) + multiset([images[from]]);
      multiset(images);
    }
    r
  }

  /** Moving an image onto its own position would give the same list. */
  lemma ReorderInPlace(images: seq<string>, i: int)
    requires 0 <= i < |images|
    ensures Reorder(images, i, i) == images
  {
  }

  /**
   * Removing the moved image from the reordered list gives the list without the image at its
   * old position: a move changes nothing but where that one image sits.
   */
  lemma ReorderThenRemove(images: seq<string>, from: int, to: int)
    requires 0 <= from < |images| && 0 <= to < |images|
    ensures WithoutIndex(Reorder(images, from, to), to) == WithoutIndex(images, from)
  {
    WithoutIndexIsSplice(Reorder(images, from, to), to);
    WithoutIndexIsSplice(images, from);
  }

  /**
   * The "Move left" button of tile `index` (shown only when `index > 0`):
   * `reorderImages(index, index - 1)` swaps the image with its left neighbour.
   */
  function MoveLeft(images: seq<string>, index: int): (r: seq<string>)
    requires 0 < index < |images|
    ensures r == images[index - 1 := images[index]][index := images[index - 1]]
  {
    var r := Reorder(images, index, index - 1);
    SwapNeighbours(images, index - 1);
    r
  }

  /**
   * The "Move right" button of tile `index` (shown only when `index < images.length - 1`):
   * `reorderImages(index, index + 1)` swaps the image with its right neighbour.
   */
  function MoveRight(images: seq<string>, index: int): (r: seq<string>)
    requires 0 <= index < |images| - 1
    ensures r == images[index := images[index + 1]][index + 1 := images[index]]
  {
    var r := Reorder(images, index, index + 1);
    SwapNeighbours(images, index);
    r
  }

  /** A move between neighbouring positions, either way, swaps the two images. */
  lemma SwapNeighbours(images: seq<string>, i: int)
    requires 0 <= i < |images| - 1
    ensures Reorder(images, i + 1, i) == images[i := images[i + 1]][i + 1 := images[i]]
    ensures Reorder(images, i, i + 1) == images[i := images[i + 1]][i + 1 := images[i]]
  {
    var swapped := images[i := images[i + 1]][i + 1 := images[i]];
    var a := Reorder(images, i + 1, i);
    var b := Reorder(images, i, i + 1);
    assert a[..i] + a[i + 1..] == images[..i + 1] + images[i + 2..];
    forall k | 0 <= k < |images| ensures a[k] == swapped[k] {
      if k < i {
        assert a[k] == (a[..i] + a[i + 1..])[k];
      } else if k > i {
        assert a[k] == (a[..i] + a[i + 1..])[k - 1];
      }
    }
    assert b[..i + 1] + b[i + 2..] == images[..i] + images[i + 1..];
    forall k | 0 <= k < |images| ensures b[k] == swapped[k] {
      if k <= i {
        assert b[k] == (b[..i + 1] + b[i + 2..])[k];
      } else if k > i + 1 {
        assert b[k] == (b[..i + 1] + b[i + 2..])[k - 1];
      }
    }
  }

  /**
   * An entry of the list `reorderImages` hands on: an image URL, or `undefined` (`None`) when
   * `splice(fromIndex, 1)` removed nothing.
   */
  type Entry = Option<string>

  /** The URLs as entries. */
  function Lift(s: seq<string>): (r: seq<Entry>)
    ensures |r| == |s| && forall k :: 0 <= k < |s| ==> r[k] == Some(s[k])
  {
    seq(|s|, k requires 0 <= k < |s| => Some(s[k]))
  }

  /**
   * Where `splice(start, ...)` starts on an array of length `len`: a NaN start (`None`) counts as
   * 0, a negative start counts from the end (and at least 0), a start past the end is the end.
   */
  function SpliceStart(start: Option<int>, len: nat): (s: nat)
    ensures s <= len
    ensures start.None? ==> s == 0
    ensures start.Some? && 0 <= start.value <= len ==> s == start.value
    ensures start.Some? && start.value > len ==> s == len
    ensures start.Some? && -(len as int) <= start.value < 0 ==> s == len + start.value
    ensures start.Some? && start.value < -(len as int) ==> s == 0
  {
    match start
    case None => 0
    case Some(v) =>
      if v < 0 then (if len + v < 0 then 0 else len + v)
      else if v > len then len else v
  }

  /**
   * `reorderImages(fromIndex, toIndex)` for any `fromIndex` a drop can supply, with the
   * semantics of `splice`: the first splice removes the entry at the clamped start, or nothing
   * when the start is the end of the list; the second inserts what was removed (`undefined` if
   * nothing was) at the clamped `toIndex`.
   */
  function MoveEntry(images: seq<string>, from: Option<int>, to: int): (r: seq<Entry>)
    ensures SpliceStart(from, |images|) < |images| ==>
      r == Lift(Reorder(images, SpliceStart(from, |images|), SpliceStart(Some(to), |images| - 1)))
    ensures SpliceStart(from, |images|) == |images| ==>
      var t := SpliceStart(Some(to), |images|);
      r == Lift(images[..t]) + [None] + Lift(images[t..])
  {
    var s := SpliceStart(from, |images|);
    if s < |images| then
      var rest := images[..s] + images[s + 1..];
      Lift(rest[..SpliceStart(Some(to), |rest|)] + [images[s]] + rest[SpliceStart(Some(to), |rest|)..])
    else
      var t := SpliceStart(Some(to), |images|);
      Lift(images[..t]) + [None] + Lift(images[t..])
  }

  /**
   * The drop handler of image tile `index`: the index dragged from is `parseInt` of the drag
   * data, `None` when that is NaN (a drop whose data is not a number, such as a file from the
   * desktop). Only a number equal to `index` is left alone (`NaN !== index` holds); any other
   * drop is handed to `reorderImages`. A drag that started on tile `f` moves image `f` to
   * `index`; a NaN moves the first image there; a number past the end removes nothing and puts
   * `undefined` at `index`.
   */
  function OnDrop(images: seq<string>, fromData: Option<int>, index: int): (r: Option<seq<Entry>>)
    requires 0 <= index < |images|
    ensures r.None? <==> fromData == Some(index)
    ensures fromData.Some? && 0 <= fromData.value < |images| && fromData.value != index ==>
      r == Some(Lift(Reorder(images, fromData.value, index)))
    ensures fromData.None? ==> r == Some(Lift(Reorder(images, 0, index)))
    ensures fromData.Some? && fromData.value >= |images| ==>
      r.Some? && |r.value| == |images| + 1 && r.value[index] == None &&
      r.value[..index] + r.value[index + 1..] == Lift(images)
    ensures r.Some? && SpliceStart(fromData, |images|) < |images| ==>
      multiset(r.value) == multiset(Lift(images))
  {
    if fromData == Some(index) then None
    else
      var r := MoveEntry(images, fromData, index);
      MoveEntryKeepsImages(images, fromData, index);
      Some(r)
  }

  /**
   * A move that removed an image keeps the same entries; one that removed nothing has the
   * `undefined` entry at `to` and the images, in order, around it.
   */
  lemma MoveEntryKeepsImages(images: seq<string>, from: Option<int>, to: int)
    requires 0 <= to < |images|
    ensures SpliceStart(from, |images|) < |images| ==>
      multiset(MoveEntry(images, from, to)) == multiset(Lift(images))
    ensures SpliceStart(from, |images|) == |images| ==>
      var r := MoveEntry(images, from, to);
      |r| == |images| + 1 && r[to] == None && r[..to] + r[to + 1..] == Lift(images)
  {
    var r := MoveEntry(images, from, to);
    var s := SpliceStart(from, |images|);
    if s < |images| {
      LiftMultiset(Reorder(images, s, to), images);
    } else {
      assert r[..to] == Lift(images[..to]) && r[to + 1..] == Lift(images[to..]);
      assert images[..to] + images[to..] == images;
      LiftConcat(images[..to], images[to..]);
    }
  }

  /** Lifting distributes over concatenation. */
  lemma LiftConcat(a: seq<string>, b: seq<string>)
    ensures Lift(a + b) == Lift(a) + Lift(b)
  {
    assert forall k :: 0 <= k < |a + b| ==> Lift(a + b)[k] == (Lift(a) + Lift(b))[k];
  }

  /** Lifting keeps two lists with the same images equal as multisets. */
  lemma {:induction false} LiftMultiset(a: seq<string>, b: seq<string>)
    requires multiset(a) == multiset(b)
    ensures multiset(Lift(a)) == multiset(Lift(b))
  {
    LiftCount(a);
    LiftCount(b);
  }

  /** Each entry of a lift occurs as often as its URL does. */
  lemma {:induction false} LiftCount(a: seq<string>)
    ensures forall x :: multiset(Lift(a))[Some(x)] == multiset(a)[x]
    ensures multiset(Lift(a))[None] == 0
    ensures multiset(Lift(a)) == multiset(seq(|a|, k requires 0 <= k < |a| => Some(a[k])))
  {
    if a != [] {
      var n := |a| - 1;
      LiftCount(a[..n]);
      assert a == a[..n] + [a[n]];
      assert Lift(a) == Lift(a[..n]) + [Some(a[n])];
    }
  }

  /**
   * A drop carrying the text "9" onto the first of three images: nothing is removed, so the list
   * grows to four entries with `undefined` in front.
   */
  lemma DropOfForeignNumber(a: string, b: string, c: string)
    ensures OnDrop([a, b, c], Some(9), 0) == Some([None, Some(a), Some(b), Some(c)])
  {
    var images := [a, b, c];
    assert images[..0] == [] && images[0..] == images;
    assert Lift(images) == [Some(a), Some(b), Some(c)];
    assert Lift([]) == [];
    assert SpliceStart(Some(9), 3) == 3 && SpliceStart(Some(0), 3) == 0;
    assert MoveEntry(images, Some(9), 0) == Lift(images[..0]) + [None] + Lift(images[0..]);
    assert MoveEntry(images, Some(9), 0) == [None, Some(a), Some(b), Some(c)];
    assert OnDrop(images, Some(9), 0) == Some(MoveEntry(images, Some(9), 0));
  }
}
