# Image viewer navigation and export naming, in Dafny

This project models the core of a small tkinter/PIL image browser
(`archivo.py`, class `ImageDisplayApp`). The window lists the image files of
an origin folder and shows them one at a time. The right and left arrows
step through the list with wrap-around. The `z` key copies the shown image
to a destination folder under a name taken from its EXIF capture time.

Modules:

- `Wrappers`: `Option` (Python's `None`) and Python truthiness of an optional string.
- `PyStr`: the Python library behaviour the script relies on.
  - ASCII `str.lower`, `str.endswith` and one-character `str.replace`.
  - The ordering `sorted()` uses on `str`.
  - `os.path.join` / `os.path.basename` for POSIX paths.
- `Listing`: `load_images`. It filters the listing by extension, joins each kept name to the folder, then sorts.
  - The sort is an insertion sort, proved to return the one sorted permutation of its input. So it agrees with Python's `sorted` whatever algorithm that uses.
- `Export`: the file name `copy_image` derives from the DateTimeOriginal tag.
- `Orientation`: the rotation angle `rotate_image` picks from the EXIF Orientation tag.
- `Navigation`: the cursor arithmetic of the two arrow-key handlers. Python's `%` and Dafny's `%` agree for a positive divisor, and the non-empty guard makes the divisor positive.
- `Viewer`: the class `ImageViewer`, holding the fields of `ImageDisplayApp` and one method per handler.
  - Dialog answers, directory listings and EXIF values are method parameters. An empty string stands for a cancelled dialog.
  - `ShowImage` and `SetOriginFolder` return `ok == false` where Python raises `IndexError`.
  - `CopyImage` returns the copy it would perform, as a `CopyAction`.

Two behaviours of the code are reproduced as written:

- Reloading the origin folder keeps `current_index`. The following `show_image(current_index)` raises `IndexError` when the kept cursor is at or past the end of the new, non-empty list. `Valid()` therefore only promises `0 <= currentIndex`, not `currentIndex < |imageList|`.
- When the new list is empty, `show_image` does nothing. `current_image_path` and the title keep describing the previous folder's image, and `copy_image` still copies that image (`StalePathScenario`).

Two further facts of the code that the model keeps:

- `set_origin_folder` never resets `current_index`.
- `copy_image` tests only `destination_folder`. With no image ever shown, `Image.open(None)` raises outside the `try` (`CopyAction.OpenFails`).

## Model

| member | source | states |
|---|---|---|
| PyStr.ReplaceCharAt | archivo.py:129 | `str.replace` of one character with another changes exactly the positions holding that character and keeps every other character in place |
| PyStr.ReplaceCharRemoves | archivo.py:129 | after replacing `from` by a different character, no `from` is left |
| PyStr.LexLeTotal | archivo.py:62 | the `str` ordering used by `sorted` is total |
| PyStr.LexLeTransitive | archivo.py:62 | the `str` ordering is transitive |
| PyStr.LexLeAntisymmetric | archivo.py:62 | two strings each `<=` the other are equal, so the sorted order is unique |
| PyStr.LexLeCommonPrefix | archivo.py:62 | a common prefix (the folder) does not change the order of two strings |
| PyStr.Join | archivo.py:62 | `os.path.join(folder, name)` always ends with `name` |
| PyStr.Basename | archivo.py:87 | `os.path.basename` returns a name holding no `/` |
| PyStr.BasenameJoin | archivo.py:62-87 | the base name of `os.path.join(folder, name)` is `name` when `name` holds no `/` |
| Listing.FilterCounts | archivo.py:62 | the filter keeps each name whose ASCII-lower-cased form ends in `.png`, `.jpg`, `.jpeg` or `.gif`, as often as the listing has it, and drops every other name |
| Listing.SortIsSortedPermutation | archivo.py:62 | the sort returns a sorted permutation of its input, and any sorted permutation of the input is that result |
| Listing.ImagePathsLength | archivo.py:62 | the new image list has one entry per image name of the listing |
| Listing.ImagePathsSpec | archivo.py:59-62 | the new image list is sorted, holds only image paths, is exactly the joined image names with their multiplicities, and is no longer than the listing |
| Listing.ImagePathsByName | archivo.py:62 | for directory entries (no `/`), sorting the joined paths equals joining the names sorted by name |
| Listing.ImagePathBasename | archivo.py:62-87 | for directory entries (no `/`), the base name of every entry of the new image list is a name of the listing that passes the extension test |
| Listing.LoadExample | archivo.py:59-62 | a folder holding `b.png`, `A.JPG`, `c.txt`, `a.gif` lists `A.JPG`, `a.gif`, `b.png` under that folder |
| Export.ExportName | archivo.py:126-132 | the name is `unnamed.jpg` when the tag is missing; a present tag `ts` gives a name of length `|ts| + 4`; every name ends in `.jpg` and holds no `:` and no space |
| Export.TimestampName | archivo.py:129 | the timestamp name is four characters longer than `ts`, keeps each character of `ts` at its position except that each `:` and space becomes `-`, ends with `.jpg`, and holds no `:` and no space |
| Export.DashedShape | archivo.py:129 | the two `replace` calls keep the length and turn exactly the `:` and space positions into `-` |
| Export.TimestampNameExample | archivo.py:129 | `2024:01:02 03:04:05` becomes `2024-01-02-03-04-05.jpg` |
| Export.TimestampRoundTrip | archivo.py:128-129 | for a timestamp of the EXIF form `YYYY:MM:DD HH:MM:SS`, the capture time can be read back from the name |
| Export.TimestampNameInjective | archivo.py:128-135 | two well-formed, different capture times never produce the same export name |
| Orientation.RotationAngle | archivo.py:94-110 | the angle is 180 exactly for orientation 3, 270 exactly for 6, 90 exactly for 8, and 0 otherwise or when the tag is missing |
| Orientation.RotationMakesUpright | archivo.py:101-106 | for the unmirrored EXIF orientations 1, 3, 6, 8 the counter-clockwise angle undoes the stored clockwise turn |
| Orientation.MirroredLeftAlone | archivo.py:101-108 | the mirrored orientations 2, 4, 5, 7 are neither flipped nor turned |
| Navigation.Next | archivo.py:114 | the next cursor lies in `[0, n)`: one step right within the list, and 0 from the last position |
| Navigation.Prev | archivo.py:119 | the previous cursor lies in `[0, n)`: one step left within the list, and `n - 1` from 0 |
| Navigation.PrevUndoesNext | archivo.py:112-120 | for an in-range cursor, right then left restores the cursor |
| Navigation.NextUndoesPrev | archivo.py:112-120 | for an in-range cursor, left then right restores the cursor |
| Navigation.NextTimesSteps | archivo.py:112-115 | `k <= n` presses of the right arrow move the cursor `k` places, wrapping once past the end |
| Navigation.PrevTimesSteps | archivo.py:117-120 | `k <= n` presses of the left arrow move the cursor `k` places back, wrapping once past the start |
| Navigation.NextCycle | archivo.py:112-115 | `n` presses of the right arrow return to the starting image |
| Navigation.PrevCycle | archivo.py:117-120 | `n` presses of the left arrow return to the starting image |
| Viewer.WindowTitle | archivo.py:85-92 | the title is the plain `Image Viewer` exactly when there is no current image path; otherwise it names the path's base name, position `current_index + 1` and the list length |
| Viewer.ShownTitleName | archivo.py:62-92 | for a listing of directory entries, the title of any shown entry names a file of that listing that passes the extension test |
| Viewer.PyIndex | archivo.py:66 | `image_list[index]` reads a position below `n` exactly when `-n <= index < n`, and raises `IndexError` otherwise |
| Viewer.ImageViewer.constructor | archivo.py:8-16 | no folders, an empty list, cursor 0, no current image, the plain title |
| Viewer.ImageViewer.LoadImages | archivo.py:59-62 | with a folder set, the list becomes the sorted image paths of the listing; without one nothing changes; the cursor is never touched |
| Viewer.ImageViewer.UpdateWindowTitle | archivo.py:85-92 | the title becomes `WindowTitle` of the current path, cursor and list length |
| Viewer.ImageViewer.ShowImage | archivo.py:64-83 | on an empty list nothing changes (stale path and title stay). Otherwise it fails exactly when the index is out of Python's range; on success the path becomes the indexed entry and the title describes it |
| Viewer.ImageViewer.ShowNextImage | archivo.py:112-115 | on an empty list nothing changes; otherwise the cursor becomes `Next(old cursor)`, always in range, and the image at it is shown |
| Viewer.ImageViewer.ShowPreviousImage | archivo.py:117-120 | on an empty list nothing changes; otherwise the cursor becomes `Prev(old cursor)`, always in range, and the image at it is shown |
| Viewer.ImageViewer.SetOriginFolder | archivo.py:44-49 | a cancelled dialog changes nothing. Otherwise the folder and list are replaced, the cursor is kept, and showing fails exactly when the kept cursor is past the end of a non-empty new list |
| Viewer.ImageViewer.SetDestinationFolder | archivo.py:51-54 | a cancelled dialog changes nothing; otherwise only the destination changes |
| Viewer.ImageViewer.CopyImage | archivo.py:122-135 | no copy without a destination. With no current image the open fails. Otherwise the current path is copied to `os.path.join(destination, ExportName(tag))`: for a relative name, that is the destination, a `/` unless it already ends in one, then the name; the target's base name is the name whenever the name holds no `/`, as it does for a well-formed EXIF timestamp |
| Viewer.ImageViewer.SetOriginFolderFromStart | archivo.py:44-49 | the corrected reload: the cursor restarts at 0, showing never fails, and the first new image is shown |
| Viewer.StaleIndexScenario | archivo.py:44-66 | three images, two right presses, then a folder with one or two images: `show_image` raises `IndexError`, and the path still names the first folder's third image |
| Viewer.StaleIndexExample | archivo.py:44-66 | the concrete case: `1.jpg`, `2.jpg`, `3.jpg` in `/a`, then `/b` holding only `x.png`, makes `show_image` raise `IndexError` |
| Viewer.ResetIndexScenario | archivo.py:44-49 | the same steps with the corrected reload show the second folder's first image |
| Viewer.StalePathScenario | archivo.py:44-135 | after reloading to a folder without images, `copy_image` still copies the first folder's image |

## Findings

| source | as written | input that shows it | evidently intended | confidence | as-written member | corrected member |
|---|---|---|---|---|---|---|
| archivo.py:44-49 | `set_origin_folder` reloads the list but keeps `current_index`, then calls `show_image(current_index)` | a folder with `1.jpg`, `2.jpg`, `3.jpg`, two right-arrow presses, then a folder holding only `x.png` (`ThreeImages`, `OneImage`): `image_list[2]` raises `IndexError` | restart at the first image of the new folder | high; not executed | Viewer.StaleIndexScenario | Viewer.ImageViewer.SetOriginFolderFromStart |

## Left out

- The Tk window, menus, key bindings, `mainloop`, `filedialog`, `messagebox`, `show_credits` and `print` are UI and I/O. Dialog answers are method parameters.
- PIL decoding, `Image.rotate`, the LANCZOS resize, `ImageTk.PhotoImage`, `ImageOps.autocontrast` and the EXIF-preserving `save` are library calls. Only the angle choice is modelled, not the pixels or the label contents.
- `os.listdir` and `shutil.copy` are filesystem I/O. The listing is an input sequence, and the copy is returned as a `CopyAction` and not performed.
- Errors raised by that I/O (an unreadable folder, a file that does not decode, a failed copy) are left out. Only the `IndexError` and the `Image.open(None)` failure are modelled.
- The `ExifTags.TAGS` loop that finds the Orientation key is library metadata. The orientation and timestamp values are given as `Option` inputs, and `None` covers every error the code swallows.
- The aspect-ratio width `int(new_height * width / height)` is floating-point arithmetic and is left out.
- Viewer.WindowTitle: records the base name, the 1-based position and the list length, but not the percentage with two decimals. That is floating-point formatting, and the full title text is not assembled.
- Viewer.ImageViewer.UpdateWindowTitle: the same omission of the percentage and the title text.
- PyStr.LowerChar: lower-cases ASCII letters only, not Unicode `str.lower()`.
- PyStr.Join: is POSIX `os.path.join`; Windows separators and drive letters are not modelled.
- The second program variant with hard-coded folders is not part of this model.
