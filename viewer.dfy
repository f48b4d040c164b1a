/**
 * ImageDisplayApp: the state the viewer keeps between key presses and menu
 * commands, and the handlers that change it. The Tk window, the decoded
 * pixels and the file copy are outside the model; dialog results, directory
 * listings and EXIF values are passed in as parameters.
 */
module Viewer {
  import opened Wrappers
  import opened PyStr
  import Listing
  import Navigation
  import Export

  /** The window title set at start-up and whenever no image path is known. */
  const PlainTitle: string := "Image Viewer"

  /**
   * The window title: PlainTitle, or the shown image's base name with its
   * 1-based position in image_list and the list's length (the percentage
   * the title also shows is left out).
   */
  datatype Title = Plain | Progress(imageName: string, position: int, total: int)

  /** update_window_title */
  function WindowTitle(currentImagePath: Option<string>, currentIndex: int, total: int): (t: Title)
    ensures t == Plain <==> !Truthy(currentImagePath)
    ensures t.Progress? ==> t.imageName == Basename(currentImagePath.value)
    ensures t.Progress? ==> t.position == currentIndex + 1 && t.total == total
  {
    if Truthy(currentImagePath) then Progress(Basename(currentImagePath.value), currentIndex + 1, total)
    else Plain
  }

  /** Python's s[index] on a list of length n: the position read, or None for an IndexError. */
  function PyIndex(n: nat, index: int): (r: Option<nat>)
    ensures r.Some? <==> -(n as int) <= index < n
    ensures r.Some? ==> r.value < n && (r.value == index || r.value == index + n)
  {
    if 0 <= index < n then Some(index)
    else if -(n as int) <= index < 0 then Some(index + n)
    else None
  }

  /**
   * The title of a shown entry names a file of the listing that passes the
   * extension test, provided the listing holds plain directory entries.
   */
  lemma ShownTitleName(folder: string, names: seq<string>, i: int, currentIndex: int)
    requires 0 <= i < |Listing.ImagePaths(folder, names)|
    requires forall f <- names :: '/' !in f
    ensures var t := WindowTitle(Some(Listing.ImagePaths(folder, names)[i]), currentIndex, |Listing.ImagePaths(folder, names)|);
      t.Progress? && t.imageName in names && Listing.IsImageName(t.imageName)
  {
    Listing.ImagePathNonEmpty(folder, names, i);
    Listing.ImagePathBasename(folder, names, i);
  }

  /** What copy_image does with the current image. */
  datatype CopyAction =
    | NotCopied                                        // no destination folder has been chosen
    | OpenFails                                        // no image was ever shown: Image.open(None) raises
    | Copy(source: string, target: string, name: string)  // copy source to target == os.path.join(destination, name)

  class ImageViewer {
    var folderPath: Option<string>
    var destinationFolder: Option<string>
    var imageList: seq<string>
    var currentIndex: int
    var currentImagePath: Option<string>
    var title: Title
    /** The directory listing that imageList was last built from. */
    ghost var listing: seq<string>

    /**
     * The object invariant. The cursor is never negative, but it is NOT
     * always below |imageList|: a reload keeps the old cursor.
     */
    ghost predicate Valid()
      reads this
    {
      0 <= currentIndex &&
      (folderPath.None? ==> imageList == []) &&
      (folderPath.Some? ==> folderPath.value != [] && imageList == Listing.ImagePaths(folderPath.value, listing)) &&
      (destinationFolder.Some? ==> destinationFolder.value != []) &&
      (currentImagePath.Some? ==> currentImagePath.value != []) &&
      (title == Plain <==> currentImagePath.None?)
    }

    /** __init__ without the Tk set-up */
    constructor ()
      ensures Valid()
      ensures folderPath.None? && destinationFolder.None? && imageList == []
      ensures currentIndex == 0 && currentImagePath.None? && title == Plain
    {
      folderPath := None;
      destinationFolder := None;
      imageList := [];
      currentIndex := 0;
      currentImagePath := None;
      title := Plain;
      listing := [];
    }

    /** load_images, given what os.listdir returns for folderPath. */
    method LoadImages(names: seq<string>)
      modifies this
      ensures Truthy(folderPath) ==> imageList == Listing.ImagePaths(folderPath.value, names) && listing == names
      ensures !Truthy(folderPath) ==> imageList == old(imageList) && listing == old(listing)
      ensures folderPath == old(folderPath) && destinationFolder == old(destinationFolder)
      ensures currentIndex == old(currentIndex) && currentImagePath == old(currentImagePath) && title == old(title)
    {
      if Truthy(folderPath) {
        imageList := Listing.ImagePaths(folderPath.value, names);
        listing := names;
      }
    }

    /** update_window_title */
    method UpdateWindowTitle()
      modifies this`title
      ensures title == WindowTitle(currentImagePath, currentIndex, |imageList|)
    {
      title := WindowTitle(currentImagePath, currentIndex, |imageList|);
    }

    /**
     * show_image(index). With an empty list it does nothing, so the previous
     * path and title stay. Otherwise ok is false exactly when image_list[index]
     * raises IndexError, and then nothing has changed.
     */
    method ShowImage(index: int) returns (ok: bool)
      requires Valid()
      modifies this
      ensures Valid()
      ensures ok <==> imageList == [] || -|imageList| <= index < |imageList|
      ensures folderPath == old(folderPath) && destinationFolder == old(destinationFolder)
      ensures imageList == old(imageList) && currentIndex == old(currentIndex) && listing == old(listing)
      ensures imageList != [] && ok ==>
        currentImagePath == Some(imageList[PyIndex(|imageList|, index).value]) &&
        title == Progress(Basename(currentImagePath.value), currentIndex + 1, |imageList|)
      ensures imageList == [] || !ok ==> currentImagePath == old(currentImagePath) && title == old(title)
    {
      ok := true;
      if imageList != [] {
        var position := PyIndex(|imageList|, index);
        if position.None? {
          ok := false;
        } else {
          var imagePath := imageList[position.value];
          Listing.ImagePathNonEmpty(folderPath.value, listing, position.value);
          assert imagePath != [];
          currentImagePath := Some(imagePath);
          UpdateWindowTitle();
          assert title == Progress(Basename(imagePath), currentIndex + 1, |imageList|);
        }
      }
    }

    /** show_next_image: a no-op on an empty list, else the cursor moves right, wrapping to 0. */
    method ShowNextImage()
      requires Valid()
      modifies this
      ensures Valid()
      ensures old(imageList) == [] ==> unchanged(this)
      ensures imageList == old(imageList) && folderPath == old(folderPath) && destinationFolder == old(destinationFolder)
      ensures imageList != [] ==>
        currentIndex == Navigation.Next(old(currentIndex), |imageList|) &&
        currentImagePath == Some(imageList[currentIndex]) &&
        title == Progress(Basename(imageList[currentIndex]), currentIndex + 1, |imageList|)
    {
      if imageList != [] {
        currentIndex := Navigation.Next(currentIndex, |imageList|);
        var ok := ShowImage(currentIndex);
      }
    }

    /** show_previous_image: a no-op on an empty list, else the cursor moves left, wrapping to the end. */
    method ShowPreviousImage()
      requires Valid()
      modifies this
      ensures Valid()
      ensures old(imageList) == [] ==> unchanged(this)
      ensures imageList == old(imageList) && folderPath == old(folderPath) && destinationFolder == old(destinationFolder)
      ensures imageList != [] ==>
        currentIndex == Navigation.Prev(old(currentIndex), |imageList|) &&
        currentImagePath == Some(imageList[currentIndex]) &&
        title == Progress(Basename(imageList[currentIndex]), currentIndex + 1, |imageList|)
    {
      if imageList != [] {
        currentIndex := Navigation.Prev(currentIndex, |imageList|);
        var ok := ShowImage(currentIndex);
      }
    }

    /**
     * set_origin_folder, given the dialog's answer ("" when cancelled) and the
     * listing of the chosen folder. The cursor is NOT reset: ok is false when
     * the kept cursor is past the end of a non-empty new list (IndexError).
     */
    method SetOriginFolder(chosen: string, names: seq<string>) returns (ok: bool)
      requires Valid()
      modifies this
      ensures Valid()
      ensures chosen == [] ==> unchanged(this) && ok
      ensures destinationFolder == old(destinationFolder) && currentIndex == old(currentIndex)
      ensures chosen != [] ==>
        folderPath == Some(chosen) && imageList == Listing.ImagePaths(chosen, names) &&
        (ok <==> imageList == [] || currentIndex < |imageList|)
      ensures chosen != [] && imageList != [] && ok ==>
        currentImagePath == Some(imageList[currentIndex]) &&
        title == Progress(Basename(imageList[currentIndex]), currentIndex + 1, |imageList|)
      ensures imageList == [] || !ok ==> currentImagePath == old(currentImagePath) && title == old(title)
    {
      ok := true;
      if chosen != [] {
        folderPath := Some(chosen);
        LoadImages(names);
        ok := ShowImage(currentIndex);
      }
    }

    /** set_destination_folder, given the dialog's answer ("" when cancelled). */
    method SetDestinationFolder(chosen: string)
      requires Valid()
      modifies this
      ensures Valid()
      ensures chosen == [] ==> unchanged(this)
      ensures chosen != [] ==> destinationFolder == Some(chosen)
      ensures folderPath == old(folderPath) && imageList == old(imageList) && currentIndex == old(currentIndex)
      ensures currentImagePath == old(currentImagePath) && title == old(title)
    {
      if chosen != [] {
        destinationFolder := Some(chosen);
      }
    }

    /**
     * copy_image, given the DateTimeOriginal tag of the current image (None
     * when it cannot be read). The hasattr test always holds, since __init__
     * sets the field; the image opened is current_image_path, which may be
     * stale after a reload.
     */
    method CopyImage(dateTimeOriginal: Option<string>) returns (action: CopyAction)
      requires Valid()
      ensures !Truthy(destinationFolder) <==> action == NotCopied
      ensures Truthy(destinationFolder) && currentImagePath.None? <==> action == OpenFails
      ensures action.Copy? ==>
        action.source == currentImagePath.value &&
        action.name == Export.ExportName(dateTimeOriginal) &&
        action.target == Join(destinationFolder.value, action.name)
      ensures action.Copy? && (action.name == [] || action.name[0] != '/') ==>
        action.target == JoinPrefix(destinationFolder.value) + action.name
      ensures action.Copy? && '/' !in action.name ==> Basename(action.target) == action.name
      ensures action.Copy? && dateTimeOriginal.Some? && Export.ExifDateTime(dateTimeOriginal.value) ==>
        action.target == JoinPrefix(destinationFolder.value) + action.name
    {
      if Truthy(destinationFolder) {
        if currentImagePath.None? {
          action := OpenFails;
        } else {
          var name := Export.ExportName(dateTimeOriginal);
          action := Copy(currentImagePath.value, Join(destinationFolder.value, name), name);
          if name == [] || name[0] != '/' {
            JoinRelative(destinationFolder.value, name);
          }
          if '/' !in name {
            BasenameJoin(destinationFolder.value, name);
          }
          if dateTimeOriginal.Some? && Export.ExifDateTime(dateTimeOriginal.value) {
            assert name[0] == dateTimeOriginal.value[0];
          }
        }
      } else {
        action := NotCopied;
      }
    }

    /**
     * set_origin_folder as evidently intended: the cursor restarts at the first
     * image of the new list, so showing it never raises.
     */
    method SetOriginFolderFromStart(chosen: string, names: seq<string>) returns (ok: bool)
      requires Valid()
      modifies this
      ensures Valid() && ok
      ensures chosen == [] ==> unchanged(this)
      ensures destinationFolder == old(destinationFolder)
      ensures chosen != [] ==>
        folderPath == Some(chosen) && imageList == Listing.ImagePaths(chosen, names) && currentIndex == 0
      ensures chosen != [] && imageList != [] ==>
        currentImagePath == Some(imageList[0]) &&
        title == Progress(Basename(imageList[0]), 1, |imageList|)
    {
      ok := true;
      if chosen != [] {
        folderPath := Some(chosen);
        LoadImages(names);
        currentIndex := 0;
        ok := ShowImage(currentIndex);
      }
    }
  }

  lemma JpegNames()
    ensures Listing.IsImageName("1.jpg") && Listing.IsImageName("2.jpg") && Listing.IsImageName("3.jpg")
  {
    assert Lower("1.jpg") == "1.jpg";
    assert Lower("2.jpg") == "2.jpg";
    assert Lower("3.jpg") == "3.jpg";
  }

  /** A folder listing 1.jpg, 2.jpg and 3.jpg gives three images. */
  lemma ThreeImages()
    ensures |Listing.ImagePaths("/a", ["1.jpg", "2.jpg", "3.jpg"])| == 3
  {
    JpegNames();
    var names := ["1.jpg", "2.jpg", "3.jpg"];
    assert names[1..] == ["2.jpg", "3.jpg"] && names[2..] == ["3.jpg"];
    assert |Listing.Filter(names[2..])| == 1;
    assert |Listing.Filter(names[1..])| == 2;
    Listing.ImagePathsLength("/a", names);
  }

  /** A folder listing only x.png gives one image. */
  lemma OneImage()
    ensures |Listing.ImagePaths("/b", ["x.png"])| == 1
  {
    assert Lower("x.png") == "x.png";
    assert Listing.Filter(["x.png"]) == ["x.png"];
    Listing.ImagePathsLength("/b", ["x.png"]);
  }

  /**
   * A first folder with at least three images, two presses of the right
   * arrow, then a folder with one or two images (ThreeImages and OneImage
   * give such listings): the kept cursor 2 is past the new list's end and
   * show_image raises IndexError, while path and title still describe the
   * third image of the first folder.
   */
  method StaleIndexScenario(first: string, firstNames: seq<string>, second: string, secondNames: seq<string>)
    returns (ok: bool, path: Option<string>)
    requires first != [] && second != []
    requires |Listing.ImagePaths(first, firstNames)| >= 3
    requires 0 < |Listing.ImagePaths(second, secondNames)| <= 2
    ensures !ok
    ensures path == Some(Listing.ImagePaths(first, firstNames)[2])
  {
    var viewer := new ImageViewer();
    var shown := viewer.SetOriginFolder(first, firstNames);
    viewer.ShowNextImage();
    viewer.ShowNextImage();
    ok := viewer.SetOriginFolder(second, secondNames);
    path := viewer.currentImagePath;
  }

  /** The listings of ThreeImages and OneImage meet StaleIndexScenario's requires: show_image(2) fails. */
  method StaleIndexExample() returns (ok: bool)
    ensures !ok
  {
    ThreeImages();
    OneImage();
    var path;
    ok, path := StaleIndexScenario("/a", ["1.jpg", "2.jpg", "3.jpg"], "/b", ["x.png"]);
  }

  /** The same steps with the cursor reset on reload show the first image of the second folder. */
  method ResetIndexScenario(first: string, firstNames: seq<string>, second: string, secondNames: seq<string>)
    returns (ok: bool, path: Option<string>)
    requires first != [] && second != []
    requires |Listing.ImagePaths(first, firstNames)| >= 3
    requires 0 < |Listing.ImagePaths(second, secondNames)|
    ensures ok
    ensures path == Some(Listing.ImagePaths(second, secondNames)[0])
  {
    var viewer := new ImageViewer();
    var shown := viewer.SetOriginFolderFromStart(first, firstNames);
    viewer.ShowNextImage();
    viewer.ShowNextImage();
    ok := viewer.SetOriginFolderFromStart(second, secondNames);
    path := viewer.currentImagePath;
  }

  /**
   * After switching to a folder without images nothing is shown anew, so the
   * export key still copies the first folder's image.
   */
  method StalePathScenario(destination: string, first: string, firstNames: seq<string>,
                           second: string, secondNames: seq<string>, stamp: Option<string>)
    returns (action: CopyAction)
    requires destination != [] && first != [] && second != []
    requires Listing.ImagePaths(first, firstNames) != []
    requires Listing.ImagePaths(second, secondNames) == []
    ensures action.Copy? && action.source == Listing.ImagePaths(first, firstNames)[0]
    ensures action.name == Export.ExportName(stamp)
  {
    var viewer := new ImageViewer();
    viewer.SetDestinationFolder(destination);
    var shown := viewer.SetOriginFolder(first, firstNames);
    var reloaded := viewer.SetOriginFolder(second, secondNames);
    action := viewer.CopyImage(stamp);
  }
}
