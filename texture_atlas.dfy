/** The integer side of TextureAtlas: which files become tiles, how tiles are laid
    out on a grid, where each image is copied, how ARGB pixels become the bottom-up
    RGBA bytes handed to the GPU, and tile lookup by index and by name. */
module Atlas {
  import opened Wrappers

  // ---------------------------------------------------------------------------
  // File names

  /** Lower-cases ASCII letters and leaves every other character alone. */
  function LowerAscii(c: char): char
  {
    if 'A' <= c <= 'Z' then ((c as int) + 32) as char else c
  }

  function ToLowerAscii(s: string): (r: string)
    ensures |r| == |s|
    ensures forall i | 0 <= i < |s| :: r[i] == LowerAscii(s[i])
  {
    seq(|s|, i requires 0 <= i < |s| => LowerAscii(s[i]))
  }

  predicate EndsWith(s: string, suffix: string)
  {
    |suffix| <= |s| && s[|s| - |suffix|..] == suffix
  }

  /** The filter of buildFromPackage: the lower-cased name ends in ".png". */
  predicate IsPngName(f: string)
  {
    EndsWith(ToLowerAscii(f), ".png")
  }

  /** A name is kept exactly when its last four characters are '.', then p, n, g in
      either case. */
  lemma IsPngNameChars(f: string)
    ensures IsPngName(f) <==>
      |f| >= 4 && f[|f| - 4] == '.' && f[|f| - 3] in "pP" && f[|f| - 2] in "nN" && f[|f| - 1] in "gG"
  {
    var l := ToLowerAscii(f);
    if |f| >= 4 {
      assert l[|l| - 4..] == [l[|f| - 4], l[|f| - 3], l[|f| - 2], l[|f| - 1]];
    }
  }

  /** The tile name of a file: a trailing lower-case ".png" is removed, any other
      ending (".PNG" included) is kept. */
  function TileName(f: string): (name: string)
    ensures EndsWith(f, ".png") ==> name + ".png" == f
    ensures !EndsWith(f, ".png") ==> name == f
  {
    if EndsWith(f, ".png") then f[..|f| - 4] else f
  }

  /** Removing the suffix is the inverse of adding it, and an upper-case suffix stays. */
  lemma TileNameOfFile(base: string)
    ensures TileName(base + ".png") == base
    ensures TileName(base + ".PNG") == base + ".PNG"
  {
    assert (base + ".png")[|base + ".png"| - 4..] == ".png";
    assert (base + ".PNG")[|base + ".PNG"| - 4..] == ".PNG";
  }

  /** The kept names, in their original order. */
  function PngNames(files: seq<string>): (pngs: seq<string>)
    ensures |pngs| <= |files|
  {
    if files == [] then []
    else PngNames(files[..|files| - 1]) + (if IsPngName(files[|files| - 1]) then [files[|files| - 1]] else [])
  }

  /** A name is kept exactly when it is listed and passes the filter. */
  lemma {:induction false} PngNamesMembers(files: seq<string>, f: string)
    ensures f in PngNames(files) <==> f in files && IsPngName(f)
  {
    if files != [] {
      PngNamesMembers(files[..|files| - 1], f);
      assert files == files[..|files| - 1] + [files[|files| - 1]];
    }
  }

  /** The filtering loop of buildFromPackage. */
  method FilterPngs(files: seq<string>) returns (pngs: seq<string>)
    ensures pngs == PngNames(files)
  {
    pngs := [];
    var i := 0;
    while i < |files|
      invariant 0 <= i <= |files|
      invariant pngs == PngNames(files[..i])
    {
      assert files[..i + 1][..i] == files[..i];
      var lowered := ToLowerAscii(files[i]);
      if EndsWith(lowered, ".png") {
        pngs := pngs + [files[i]];
      }
      i := i + 1;
    }
    assert files[..i] == files;
  }

  // ---------------------------------------------------------------------------
  // Sorting (Collections.sort on String: lexicographic by character)

  /** Lexicographic order by character: String.compareTo(a, b) <= 0 for names without
      supplementary characters (Java compares UTF-16 units, this compares code points). */
  predicate StrLe(a: string, b: string)
    decreases |a|
  {
    a == [] || (b != [] && (a[0] < b[0] || (a[0] == b[0] && StrLe(a[1..], b[1..]))))
  }

  lemma {:induction false} StrLeTotal(a: string, b: string)
    ensures StrLe(a, b) || StrLe(b, a)
    decreases |a|
  {
    if a != [] && b != [] && a[0] == b[0] {
      StrLeTotal(a[1..], b[1..]);
    }
  }

  lemma {:induction false} StrLeTrans(a: string, b: string, c: string)
    requires StrLe(a, b) && StrLe(b, c)
    ensures StrLe(a, c)
    decreases |a|
  {
    if a != [] && b != [] && c != [] && a[0] == b[0] && b[0] == c[0] {
      StrLeTrans(a[1..], b[1..], c[1..]);
    }
  }

  predicate SortedStrings(s: seq<string>)
  {
    forall i, j | 0 <= i < j < |s| :: StrLe(s[i], s[j])
  }

  function Insert(x: string, s: seq<string>): (r: seq<string>)
    ensures multiset(r) == multiset(s) + multiset{x}
  {
    if s == [] then [x]
    else if StrLe(x, s[0]) then [x] + s
    else assert s == [s[0]] + s[1..]; [s[0]] + Insert(x, s[1..])
  }

  lemma {:induction false} InsertSorted(x: string, s: seq<string>)
    requires SortedStrings(s)
    ensures SortedStrings(Insert(x, s))
  {
    if s != [] {
      if StrLe(x, s[0]) {
        forall j | 1 <= j < |s| + 1 ensures StrLe(x, ([x] + s)[j]) {
          if j > 1 { StrLeTrans(x, s[0], s[j - 1]); }
        }
      } else {
        StrLeTotal(x, s[0]);
        var rest := Insert(x, s[1..]);
        InsertSorted(x, s[1..]);
        forall j | 0 <= j < |rest| ensures StrLe(s[0], rest[j]) {
          assert rest[j] in multiset(rest);
          assert rest[j] in multiset(s[1..]) + multiset{x};
          if rest[j] != x {
            assert rest[j] in s[1..];
            var k :| 0 <= k < |s[1..]| && s[1..][k] == rest[j];
            assert s[k + 1] == rest[j];
          }
        }
      }
    }
  }

  /** The result of Collections.sort: the same names, in ascending order. */
  function SortStrings(s: seq<string>): (r: seq<string>)
    ensures multiset(r) == multiset(s)
  {
    if s == [] then [] else assert s == [s[0]] + s[1..]; Insert(s[0], SortStrings(s[1..]))
  }

  lemma {:induction false} SortStringsSorted(s: seq<string>)
    ensures SortedStrings(SortStrings(s))
    ensures |SortStrings(s)| == |s|
  {
    assert |SortStrings(s)| == |multiset(SortStrings(s))| == |multiset(s)| == |s|;
    if s != [] {
      SortStringsSorted(s[1..]);
      InsertSorted(s[0], SortStrings(s[1..]));
    }
  }

  // ---------------------------------------------------------------------------
  // Grid layout

  /** Math.ceil(Math.sqrt(n)) for a non-negative int: the least c with c * c >= n
      (a double square root is exact enough for every int that this is the same). */
  function CeilSqrt(n: nat): (c: nat)
    ensures c * c >= n
    ensures c == 0 || (c - 1) * (c - 1) < n
  {
    CeilSqrtFrom(n, 0)
  }

  function CeilSqrtFrom(n: nat, c: nat): (r: nat)
    requires c == 0 || (c - 1) * (c - 1) < n
    ensures r * r >= n
    ensures r == 0 || (r - 1) * (r - 1) < n
    decreases n - c
  {
    if c * c >= n then c
    else
      assert c <= c * c;
      CeilSqrtFrom(n, c + 1)
  }

  /** (int) Math.ceil((double) n / d) for non-negative n and positive d. */
  function CeilDiv(n: nat, d: nat): (q: nat)
    requires d > 0
    ensures d * q >= n
    ensures q == 0 || d * (q - 1) < n
  {
    (n + d - 1) / d
  }

  /** Tile i of n sits in column i % cols and row i / cols of a cols x rows grid
      with cols = ceil(sqrt n) and rows = ceil(n / cols); the grid holds all n tiles. */
  lemma GridHoldsTiles(n: nat, i: nat)
    requires i < n
    ensures CeilSqrt(n) > 0
    ensures CeilSqrt(n) * CeilDiv(n, CeilSqrt(n)) >= n
    ensures i % CeilSqrt(n) < CeilSqrt(n)
    ensures i / CeilSqrt(n) < CeilDiv(n, CeilSqrt(n))
    ensures (i / CeilSqrt(n)) * CeilSqrt(n) + i % CeilSqrt(n) == i
  {
    var cols := CeilSqrt(n);
    var rows := CeilDiv(n, cols);
    RowBelow(i, cols, rows);
  }

  lemma RowBelow(i: nat, cols: nat, rows: nat)
    requires cols > 0 && i < cols * rows
    ensures i / cols < rows
  {
  }

  /** The top-left corner at which buildFromPackage copies tile i of size w x h into
      a cell of size tileW x tileH: the image is centred in its cell. */
  function TileOrigin(i: nat, cols: nat, tileW: nat, tileH: nat, w: nat, h: nat): (o: (nat, nat))
    requires cols > 0 && w <= tileW && h <= tileH
  {
    ((i % cols) * tileW + (tileW - w) / 2, (i / cols) * tileH + (tileH - h) / 2)
  }

  /** Every copied image lies inside its own cell, and so inside the cols*tileW by
      rows*tileH atlas; each of its rows fits in one atlas row. */
  lemma TileInsideCell(i: nat, cols: nat, rows: nat, tileW: nat, tileH: nat, w: nat, h: nat)
    requires cols > 0 && i < cols * rows && w <= tileW && h <= tileH
    ensures var o := TileOrigin(i, cols, tileW, tileH, w, h);
      && (i % cols) * tileW <= o.0 && o.0 + w <= (i % cols + 1) * tileW
      && (i / cols) * tileH <= o.1 && o.1 + h <= (i / cols + 1) * tileH
      && 0 <= o.0 && o.0 + w <= cols * tileW
      && 0 <= o.1 && o.1 + h <= rows * tileH
  {
    var col, row := i % cols, i / cols;
    RowBelow(i, cols, rows);
    assert (col + 1) * tileW == col * tileW + tileW;
    assert (row + 1) * tileH == row * tileH + tileH;
    MulMono(col + 1, cols, tileW);
    MulMono(row + 1, rows, tileH);
  }

  lemma MulMono(a: nat, b: nat, c: nat)
    requires a <= b
    ensures a * c <= b * c
  {
  }

  // ---------------------------------------------------------------------------
  // Copying the images into the atlas pixel buffer
  //
  // The atlas buffer is an int[] of atlasW * atlasH pixels, row-major with the top
  // row first, and every copy writes one row of an image into one row of the atlas.
  // The model addresses it by (row, column): an array2 in the method, and a
  // sequence of rows in the functions that specify it.

  /** An image as ImageIO decodes it: width x height ARGB ints, top row first. */
  datatype Image = Image(width: nat, height: nat, rows: seq<seq<bv32>>)

  /** rows is an h-row raster of w pixels per row. */
  predicate IsRaster(rows: seq<seq<bv32>>, w: nat, h: nat)
  {
    |rows| == h && forall y | 0 <= y < h :: |rows[y]| == w
  }

  /** Decoded images are never empty and carry one int per pixel. */
  type DecodedImage = img: Image | img.width > 0 && img.height > 0 && IsRaster(img.rows, img.width, img.height)
    witness Image(1, 1, [[0]])

  /** A raster of transparent pixels (the zero-filled new int[]). */
  function Blank(w: nat, h: nat): (r: seq<seq<bv32>>)
    ensures IsRaster(r, w, h)
    ensures forall y, x | 0 <= y < h && 0 <= x < w :: r[y][x] == 0
  {
    seq(h, _ => seq(w, _ => 0))
  }

  /** Whether pixel (x, y) lies in the w x h rectangle with top-left corner (x0, y0). */
  predicate Covers(x0: int, y0: int, w: int, h: int, x: int, y: int)
  {
    x0 <= x < x0 + w && y0 <= y < y0 + h
  }

  /** System.arraycopy of src into row from column x0 on. */
  function Splice(row: seq<bv32>, x0: nat, src: seq<bv32>): (r: seq<bv32>)
    requires x0 + |src| <= |row|
    ensures |r| == |row|
  {
    row[..x0] + src + row[x0 + |src|..]
  }

  /** The copy overwrites exactly the |src| pixels from column x0 on. */
  lemma SpliceAt(row: seq<bv32>, x0: nat, src: seq<bv32>, x: nat)
    requires x0 + |src| <= |row| && x < |row|
    ensures Splice(row, x0, src)[x] == if x0 <= x < x0 + |src| then src[x - x0] else row[x]
  {
  }

  /** The canvas after the first n rows of img have been copied to the rectangle with
      top-left corner (x0, y0). */
  function PasteRows(canvas: seq<seq<bv32>>, W: nat, img: DecodedImage, x0: nat, y0: nat, n: nat): (r: seq<seq<bv32>>)
    requires n <= img.height && x0 + img.width <= W && y0 + n <= |canvas|
    requires IsRaster(canvas, W, |canvas|)
    ensures IsRaster(r, W, |canvas|)
    decreases n
  {
    if n == 0 then canvas
    else
      var prev := PasteRows(canvas, W, img, x0, y0, n - 1);
      prev[y0 + n - 1 := Splice(prev[y0 + n - 1], x0, img.rows[n - 1])]
  }

  /** Copying the rows changes exactly the pixels of the rectangle they cover. */
  lemma {:induction false} PasteRowsAt(canvas: seq<seq<bv32>>, W: nat, img: DecodedImage, x0: nat, y0: nat, n: nat, x: nat, y: nat)
    requires n <= img.height && x0 + img.width <= W && y0 + n <= |canvas|
    requires IsRaster(canvas, W, |canvas|)
    requires y < |canvas| && x < W
    ensures PasteRows(canvas, W, img, x0, y0, n)[y][x]
         == if Covers(x0, y0, img.width, n, x, y) then img.rows[y - y0][x - x0] else canvas[y][x]
    decreases n
  {
    if n > 0 {
      var prev := PasteRows(canvas, W, img, x0, y0, n - 1);
      PasteRowsAt(canvas, W, img, x0, y0, n - 1, x, y);
      if y == y0 + n - 1 {
        SpliceAt(prev[y], x0, img.rows[n - 1], x);
      }
    }
  }

  /** The grid has a cell for every image and every image fits its cell. */
  predicate LayoutFits(images: seq<DecodedImage>, cols: nat, rows: nat, tileW: nat, tileH: nat)
  {
    cols > 0 && |images| <= cols * rows &&
    forall i | 0 <= i < |images| :: images[i].width <= tileW && images[i].height <= tileH
  }

  /** Where image i of the list is copied. */
  function Origin(images: seq<DecodedImage>, cols: nat, rows: nat, tileW: nat, tileH: nat, i: nat): (o: (nat, nat))
    requires LayoutFits(images, cols, rows, tileW, tileH) && i < |images|
  {
    TileOrigin(i, cols, tileW, tileH, images[i].width, images[i].height)
  }

  /** Every image of the list lies inside the atlas once copied to its origin. */
  lemma OriginsInside(images: seq<DecodedImage>, cols: nat, rows: nat, tileW: nat, tileH: nat)
    requires LayoutFits(images, cols, rows, tileW, tileH)
    ensures forall i | 0 <= i < |images| :: var o := Origin(images, cols, rows, tileW, tileH, i);
      o.0 + images[i].width <= cols * tileW && o.1 + images[i].height <= rows * tileH
  {
    forall i | 0 <= i < |images|
      ensures var o := Origin(images, cols, rows, tileW, tileH, i);
        o.0 + images[i].width <= cols * tileW && o.1 + images[i].height <= rows * tileH
    {
      TileInsideCell(i, cols, rows, tileW, tileH, images[i].width, images[i].height);
    }
  }

  /** Where each image of the list is copied, in list order. */
  function Origins(images: seq<DecodedImage>, cols: nat, rows: nat, tileW: nat, tileH: nat): (os: seq<(nat, nat)>)
    requires LayoutFits(images, cols, rows, tileW, tileH)
    ensures Placed(images, os, cols * tileW, rows * tileH)
    ensures forall i | 0 <= i < |images| :: os[i] == Origin(images, cols, rows, tileW, tileH, i)
  {
    OriginsInside(images, cols, rows, tileW, tileH);
    seq(|images|, i requires 0 <= i < |images| => Origin(images, cols, rows, tileW, tileH, i))
  }

  /** Every image, copied at its origin, lies inside the W x H canvas. */
  predicate Placed(images: seq<DecodedImage>, origins: seq<(nat, nat)>, W: nat, H: nat)
  {
    |origins| == |images| &&
    forall i | 0 <= i < |images| :: origins[i].0 + images[i].width <= W && origins[i].1 + images[i].height <= H
  }

  /** The rectangles of images i and j, copied at their origins, share no pixel: one
      lies wholly to the left of or above the other. */
  predicate RectsApart(images: seq<DecodedImage>, origins: seq<(nat, nat)>, i: nat, j: nat)
    requires |origins| == |images| && i < |images| && j < |images|
  {
    || origins[i].0 + images[i].width <= origins[j].0 || origins[j].0 + images[j].width <= origins[i].0
    || origins[i].1 + images[i].height <= origins[j].1 || origins[j].1 + images[j].height <= origins[i].1
  }

  /** No pixel is covered by two of the images copied at their origins. */
  predicate Apart(images: seq<DecodedImage>, origins: seq<(nat, nat)>)
    requires |origins| == |images|
  {
    forall i, j | 0 <= i < |images| && 0 <= j < |images| && i != j :: RectsApart(images, origins, i, j)
  }

  /** The canvas after images 0..k-1 have been copied at their origins, in order. */
  function PasteTiles(canvas: seq<seq<bv32>>, W: nat, images: seq<DecodedImage>, origins: seq<(nat, nat)>, k: nat)
    : (r: seq<seq<bv32>>)
    requires Placed(images, origins, W, |canvas|) && k <= |images|
    requires IsRaster(canvas, W, |canvas|)
    ensures IsRaster(r, W, |canvas|)
  {
    if k == 0 then canvas
    else
      PasteRows(PasteTiles(canvas, W, images, origins, k - 1), W,
                images[k - 1], origins[k - 1].0, origins[k - 1].1, images[k - 1].height)
  }

  /** The finished atlas pixels of buildFromPackage. */
  function AtlasPixels(images: seq<DecodedImage>, cols: nat, rows: nat, tileW: nat, tileH: nat): (r: seq<seq<bv32>>)
    requires LayoutFits(images, cols, rows, tileW, tileH)
    ensures IsRaster(r, cols * tileW, rows * tileH)
  {
    PasteTiles(Blank(cols * tileW, rows * tileH), cols * tileW, images, Origins(images, cols, rows, tileW, tileH), |images|)
  }

  lemma DivModRange(i: nat, n: nat)
    requires n > 0
    ensures 0 <= i / n && 0 <= i % n < n
  {
  }

  /** Distinct tiles sit in distinct cells of the grid. */
  lemma CellOfTileDiffers(i: nat, j: nat, cols: nat)
    requires cols > 0 && i != j
    ensures i % cols != j % cols || i / cols != j / cols
  {
    assert i == (i / cols) * cols + i % cols && j == (j / cols) * cols + j % cols;
  }

  lemma RowStart(y: int, W: int)
    ensures (y + 1) * W == y * W + W
  {
  }

  lemma RowsOrdered(y: nat, y': nat, W: nat)
    requires y < y'
    ensures (y + 1) * W <= y' * W
  {
    MulMono(y + 1, y', W);
  }

  /** Two distinct images of the grid layout lie in distinct cells, and each lies inside
      its own cell, so their rectangles are apart. */
  lemma OnlyOwnCell(images: seq<DecodedImage>, cols: nat, rows: nat, tileW: nat, tileH: nat, i: nat, j: nat)
    requires LayoutFits(images, cols, rows, tileW, tileH) && i < |images| && j < |images| && i != j
    ensures var oi, oj := Origin(images, cols, rows, tileW, tileH, i), Origin(images, cols, rows, tileW, tileH, j);
      || oi.0 + images[i].width <= oj.0 || oj.0 + images[j].width <= oi.0
      || oi.1 + images[i].height <= oj.1 || oj.1 + images[j].height <= oi.1
  {
    var wi, hi, wj, hj := images[i].width, images[i].height, images[j].width, images[j].height;
    var oi, oj := TileOrigin(i, cols, tileW, tileH, wi, hi), TileOrigin(j, cols, tileW, tileH, wj, hj);
    TileInsideCell(i, cols, rows, tileW, tileH, wi, hi);
    TileInsideCell(j, cols, rows, tileW, tileH, wj, hj);
    CellOfTileDiffers(i, j, cols);
    DivModRange(i, cols);
    DivModRange(j, cols);
    CellRectsApart(i % cols, i / cols, j % cols, j / cols, tileW, tileH, oi, wi, hi, oj, wj, hj);
  }

  /** Rectangles inside two distinct cells of the grid are apart. */
  lemma CellRectsApart(ci: nat, ri: nat, cj: nat, rj: nat, tileW: nat, tileH: nat,
                       oi: (nat, nat), wi: nat, hi: nat, oj: (nat, nat), wj: nat, hj: nat)
    requires ci != cj || ri != rj
    requires ci * tileW <= oi.0 && oi.0 + wi <= (ci + 1) * tileW && ri * tileH <= oi.1 && oi.1 + hi <= (ri + 1) * tileH
    requires cj * tileW <= oj.0 && oj.0 + wj <= (cj + 1) * tileW && rj * tileH <= oj.1 && oj.1 + hj <= (rj + 1) * tileH
    ensures oi.0 + wi <= oj.0 || oj.0 + wj <= oi.0 || oi.1 + hi <= oj.1 || oj.1 + hj <= oi.1
  {
    if ci < cj {
      SpanBefore(ci, cj, tileW, oi.0, wi, oj.0);
    } else if cj < ci {
      SpanBefore(cj, ci, tileW, oj.0, wj, oi.0);
    } else if ri < rj {
      SpanBefore(ri, rj, tileH, oi.1, hi, oj.1);
    } else {
      SpanBefore(rj, ri, tileH, oj.1, hj, oi.1);
    }
  }

  /** A span inside cell a of a row of cells ends before any span inside a later cell b begins. */
  lemma SpanBefore(a: nat, b: nat, size: nat, x: int, w: int, x': int)
    requires a < b && x + w <= (a + 1) * size && b * size <= x'
    ensures x + w <= x'
  {
    RowsOrdered(a, b, size);
  }

  /** The images of the grid layout never overlap. */
  lemma OriginsApart(images: seq<DecodedImage>, cols: nat, rows: nat, tileW: nat, tileH: nat)
    requires LayoutFits(images, cols, rows, tileW, tileH)
    ensures Apart(images, Origins(images, cols, rows, tileW, tileH))
  {
    forall i, j | 0 <= i < |images| && 0 <= j < |images| && i != j
      ensures RectsApart(images, Origins(images, cols, rows, tileW, tileH), i, j)
    {
      OnlyOwnCell(images, cols, rows, tileW, tileH, i, j);
      var os := Origins(images, cols, rows, tileW, tileH);
      assert os[i] == Origin(images, cols, rows, tileW, tileH, i) && os[j] == Origin(images, cols, rows, tileW, tileH, j);
    }
  }

  /** Copying image k-1 changes exactly the pixels its rectangle covers. */
  lemma PasteTilesStep(canvas: seq<seq<bv32>>, W: nat, images: seq<DecodedImage>, origins: seq<(nat, nat)>,
                       k: nat, x: nat, y: nat)
    requires Placed(images, origins, W, |canvas|) && 0 < k <= |images|
    requires IsRaster(canvas, W, |canvas|)
    requires x < W && y < |canvas|
    ensures var o := origins[k - 1];
      PasteTiles(canvas, W, images, origins, k)[y][x]
      == if Covers(o.0, o.1, images[k - 1].width, images[k - 1].height, x, y)
         then images[k - 1].rows[y - o.1][x - o.0]
         else PasteTiles(canvas, W, images, origins, k - 1)[y][x]
  {
    var prev := PasteTiles(canvas, W, images, origins, k - 1);
    assert PasteTiles(canvas, W, images, origins, k)
        == PasteRows(prev, W, images[k - 1], origins[k - 1].0, origins[k - 1].1, images[k - 1].height);
    PasteRowsAt(prev, W, images[k - 1], origins[k - 1].0, origins[k - 1].1, images[k - 1].height, x, y);
  }

  /** A pixel outside image k-1's rectangle is left alone by its copy. */
  lemma PasteTilesKeep(canvas: seq<seq<bv32>>, W: nat, images: seq<DecodedImage>, origins: seq<(nat, nat)>,
                       k: nat, x: nat, y: nat)
    requires Placed(images, origins, W, |canvas|) && 0 < k <= |images|
    requires IsRaster(canvas, W, |canvas|)
    requires x < W && y < |canvas|
    requires !Covers(origins[k - 1].0, origins[k - 1].1, images[k - 1].width, images[k - 1].height, x, y)
    ensures PasteTiles(canvas, W, images, origins, k)[y][x] == PasteTiles(canvas, W, images, origins, k - 1)[y][x]
  {
    PasteTilesStep(canvas, W, images, origins, k, x, y);
  }

  /** A pixel that none of images k0..k-1 covers keeps, after image k-1 has been copied,
      the value it had once images 0..k0-1 were copied. */
  lemma {:induction false} PasteTilesAfter(canvas: seq<seq<bv32>>, W: nat, images: seq<DecodedImage>,
                                           origins: seq<(nat, nat)>, k0: nat, k: nat, x: nat, y: nat)
    requires Placed(images, origins, W, |canvas|) && k0 <= k <= |images|
    requires IsRaster(canvas, W, |canvas|)
    requires x < W && y < |canvas|
    requires forall j | k0 <= j < k ::
      !Covers(origins[j].0, origins[j].1, images[j].width, images[j].height, x, y)
    ensures PasteTiles(canvas, W, images, origins, k)[y][x] == PasteTiles(canvas, W, images, origins, k0)[y][x]
    decreases k
  {
    if k > k0 {
      assert !Covers(origins[k - 1].0, origins[k - 1].1, images[k - 1].width, images[k - 1].height, x, y);
      PasteTilesKeep(canvas, W, images, origins, k, x, y);
      PasteTilesAfter(canvas, W, images, origins, k0, k - 1, x, y);
    }
  }

  /** After images 0..k-1 have been copied, each pixel of image i < k sits at its offset
      from the image's origin: no later image overwrites it. */
  lemma PasteTilesAt(canvas: seq<seq<bv32>>, W: nat, images: seq<DecodedImage>, origins: seq<(nat, nat)>,
                     k: nat, i: nat, xx: nat, yy: nat)
    requires Placed(images, origins, W, |canvas|) && Apart(images, origins) && k <= |images|
    requires IsRaster(canvas, W, |canvas|)
    requires i < k && xx < images[i].width && yy < images[i].height
    ensures PasteTiles(canvas, W, images, origins, k)[origins[i].1 + yy][origins[i].0 + xx] == images[i].rows[yy][xx]
  {
    var x, y := origins[i].0 + xx, origins[i].1 + yy;
    OthersMiss(images, origins, i, x, y, i + 1, k);
    PasteTilesShown(canvas, W, images, origins, i, xx, yy);
    PasteTilesAfter(canvas, W, images, origins, i + 1, k, x, y);
  }

  /** Right after image i is copied, its pixels show at their offsets from its origin. */
  lemma PasteTilesShown(canvas: seq<seq<bv32>>, W: nat, images: seq<DecodedImage>, origins: seq<(nat, nat)>,
                        i: nat, xx: nat, yy: nat)
    requires Placed(images, origins, W, |canvas|) && i < |images|
    requires IsRaster(canvas, W, |canvas|)
    requires xx < images[i].width && yy < images[i].height
    ensures PasteTiles(canvas, W, images, origins, i + 1)[origins[i].1 + yy][origins[i].0 + xx] == images[i].rows[yy][xx]
  {
    PasteTilesStep(canvas, W, images, origins, i + 1, origins[i].0 + xx, origins[i].1 + yy);
  }

  /** A pixel (x, y) of image i lies in the rectangle of none of images k0..k-1, when i < k0. */
  lemma OthersMiss(images: seq<DecodedImage>, origins: seq<(nat, nat)>, i: nat, x: nat, y: nat, k0: nat, k: nat)
    requires |origins| == |images| && Apart(images, origins)
    requires i < k0 && i < |images| && k <= |images|
    requires Covers(origins[i].0, origins[i].1, images[i].width, images[i].height, x, y)
    ensures forall j | k0 <= j < k :: !Covers(origins[j].0, origins[j].1, images[j].width, images[j].height, x, y)
  {
    forall j | k0 <= j < k
      ensures !Covers(origins[j].0, origins[j].1, images[j].width, images[j].height, x, y)
    {
      assert RectsApart(images, origins, i, j);
    }
  }

  /** A pixel that no image among 0..k-1 covers keeps its value from the canvas. */
  lemma PasteTilesElsewhere(canvas: seq<seq<bv32>>, W: nat, images: seq<DecodedImage>, origins: seq<(nat, nat)>,
                            k: nat, x: nat, y: nat)
    requires Placed(images, origins, W, |canvas|) && k <= |images|
    requires IsRaster(canvas, W, |canvas|)
    requires x < W && y < |canvas|
    requires forall i | 0 <= i < k :: !Covers(origins[i].0, origins[i].1, images[i].width, images[i].height, x, y)
    ensures PasteTiles(canvas, W, images, origins, k)[y][x] == canvas[y][x]
  {
    PasteTilesAfter(canvas, W, images, origins, 0, k, x, y);
  }

  /** In the finished atlas every image pixel appears at its centred position in the
      image's cell, and every pixel outside all images is transparent. */
  lemma AtlasShowsEveryTile(images: seq<DecodedImage>, cols: nat, rows: nat, tileW: nat, tileH: nat,
                            i: nat, xx: nat, yy: nat)
    requires LayoutFits(images, cols, rows, tileW, tileH)
    requires i < |images| && xx < images[i].width && yy < images[i].height
    ensures var o := Origin(images, cols, rows, tileW, tileH, i);
      AtlasPixels(images, cols, rows, tileW, tileH)[o.1 + yy][o.0 + xx] == images[i].rows[yy][xx]
  {
    AtlasShowsAt(images, cols, rows, tileW, tileH, i, xx, yy);
  }

  lemma AtlasShowsAt(images: seq<DecodedImage>, cols: nat, rows: nat, tileW: nat, tileH: nat,
                     i: nat, xx: nat, yy: nat)
    requires LayoutFits(images, cols, rows, tileW, tileH)
    requires i < |images| && xx < images[i].width && yy < images[i].height
    ensures var o := Origins(images, cols, rows, tileW, tileH)[i];
      AtlasPixels(images, cols, rows, tileW, tileH)[o.1 + yy][o.0 + xx] == images[i].rows[yy][xx]
  {
    OriginsApart(images, cols, rows, tileW, tileH);
    PastedShows(cols * tileW, rows * tileH, images, Origins(images, cols, rows, tileW, tileH), i, xx, yy);
  }

  /** Images placed apart on a blank canvas all show in full once every one is copied. */
  lemma PastedShows(W: nat, H: nat, images: seq<DecodedImage>, origins: seq<(nat, nat)>, i: nat, xx: nat, yy: nat)
    requires Placed(images, origins, W, H) && Apart(images, origins)
    requires i < |images| && xx < images[i].width && yy < images[i].height
    ensures PasteTiles(Blank(W, H), W, images, origins, |images|)[origins[i].1 + yy][origins[i].0 + xx]
         == images[i].rows[yy][xx]
  {
    PasteTilesAt(Blank(W, H), W, images, origins, |images|, i, xx, yy);
  }

  lemma AtlasTransparentElsewhere(images: seq<DecodedImage>, cols: nat, rows: nat, tileW: nat, tileH: nat, x: nat, y: nat)
    requires LayoutFits(images, cols, rows, tileW, tileH)
    requires x < cols * tileW && y < rows * tileH
    requires forall i | 0 <= i < |images| :: var o := Origin(images, cols, rows, tileW, tileH, i);
      !Covers(o.0, o.1, images[i].width, images[i].height, x, y)
    ensures AtlasPixels(images, cols, rows, tileW, tileH)[y][x] == 0
  {
    PasteTilesElsewhere(Blank(cols * tileW, rows * tileH), cols * tileW, images, Origins(images, cols, rows, tileW, tileH),
                        |images|, x, y);
  }

  /** The array holds exactly the raster r. */
  predicate Shows(a: array2<bv32>, r: seq<seq<bv32>>)
    reads a
  {
    IsRaster(r, a.Length1, a.Length0) &&
    forall y, x | 0 <= y < a.Length0 && 0 <= x < a.Length1 :: a[y, x] == r[y][x]
  }

  /** The copy loops of buildFromPackage: a zero-filled atlas, then every row of every
      image copied into its cell. */
  method ComposeAtlas(images: seq<DecodedImage>, cols: nat, rows: nat, tileW: nat, tileH: nat)
    returns (pixels: array2<bv32>)
    requires LayoutFits(images, cols, rows, tileW, tileH)
    ensures fresh(pixels)
    ensures pixels.Length0 == rows * tileH && pixels.Length1 == cols * tileW
    ensures Shows(pixels, AtlasPixels(images, cols, rows, tileW, tileH))
  {
    pixels := new bv32[rows * tileH, cols * tileW]((y, x) => 0);
    ghost var blank := Blank(cols * tileW, rows * tileH);
    ghost var origins := Origins(images, cols, rows, tileW, tileH);
    assert Shows(pixels, blank);
    var i := 0;
    while i < |images|
      invariant i <= |images|
      invariant Shows(pixels, PasteTiles(blank, cols * tileW, images, origins, i))
    {
      CopyTile(pixels, images, cols, rows, tileW, tileH, i, blank, origins);
      i := i + 1;
    }
  }

  /** One pass of the outer copy loop: image i is centred in cell (i % cols, i / cols). */
  method CopyTile(pixels: array2<bv32>, images: seq<DecodedImage>, cols: nat, rows: nat, tileW: nat, tileH: nat,
                  i: nat, ghost canvas: seq<seq<bv32>>, ghost origins: seq<(nat, nat)>)
    requires LayoutFits(images, cols, rows, tileW, tileH) && i < |images|
    requires origins == Origins(images, cols, rows, tileW, tileH)
    requires IsRaster(canvas, cols * tileW, rows * tileH)
    requires pixels.Length0 == rows * tileH && pixels.Length1 == cols * tileW
    requires Shows(pixels, PasteTiles(canvas, cols * tileW, images, origins, i))
    modifies pixels
    ensures Shows(pixels, PasteTiles(canvas, cols * tileW, images, origins, i + 1))
  {
    var img := images[i];
    var col := i % cols;
    var row := i / cols;
    var x0 := col * tileW + (tileW - img.width) / 2;
    var y0 := row * tileH + (tileH - img.height) / 2;
    assert x0 == origins[i].0 && y0 == origins[i].1;
    ghost var before := PasteTiles(canvas, cols * tileW, images, origins, i);
    CopyImage(pixels, img, x0, y0, before);
  }

  /** The row loop for one image: System.arraycopy of each of its rows into the atlas. */
  method CopyImage(pixels: array2<bv32>, img: DecodedImage, x0: nat, y0: nat, ghost before: seq<seq<bv32>>)
    requires x0 + img.width <= pixels.Length1 && y0 + img.height <= pixels.Length0
    requires Shows(pixels, before)
    modifies pixels
    ensures Shows(pixels, PasteRows(before, pixels.Length1, img, x0, y0, img.height))
  {
    for yy := 0 to img.height
      invariant Shows(pixels, PasteRows(before, pixels.Length1, img, x0, y0, yy))
    {
      CopyRow(pixels, img, x0, y0, yy, before);
    }
  }

  /** One System.arraycopy: row yy of the image into atlas row y0 + yy from column x0 on. */
  method CopyRow(pixels: array2<bv32>, img: DecodedImage, x0: nat, y0: nat, yy: nat, ghost before: seq<seq<bv32>>)
    requires x0 + img.width <= pixels.Length1 && y0 + img.height <= pixels.Length0 && yy < img.height
    requires |before| == pixels.Length0 && IsRaster(before, pixels.Length1, pixels.Length0)
    requires Shows(pixels, PasteRows(before, pixels.Length1, img, x0, y0, yy))
    modifies pixels
    ensures Shows(pixels, PasteRows(before, pixels.Length1, img, x0, y0, yy + 1))
  {
    ghost var prev := PasteRows(before, pixels.Length1, img, x0, y0, yy);
    ghost var next := PasteRows(before, pixels.Length1, img, x0, y0, yy + 1);
    assert next == prev[y0 + yy := Splice(prev[y0 + yy], x0, img.rows[yy])];
    forall k | 0 <= k < img.width {
      pixels[y0 + yy, x0 + k] := img.rows[yy][k];
    }
    forall y, x | 0 <= y < pixels.Length0 && 0 <= x < pixels.Length1
      ensures pixels[y, x] == next[y][x]
    {
      if y == y0 + yy {
        SpliceAt(prev[y], x0, img.rows[yy], x);
        if x0 <= x < x0 + img.width {
          assert pixels[y0 + yy, x0 + (x - x0)] == img.rows[yy][x - x0];
        }
      }
    }
  }

  // ---------------------------------------------------------------------------
  // The bytes handed to the GPU by uploadToGL

  /** The rows of a 2-D array, top row first. */
  function RowsOf(a: array2<bv32>): (r: seq<seq<bv32>>)
    reads a
    ensures Shows(a, r)
  {
    seq(a.Length0, y requires 0 <= y < a.Length0 reads a => seq(a.Length1, x requires 0 <= x < a.Length1 reads a => a[y, x]))
  }

  /** The bytes put for one ARGB pixel: red, green, blue, then alpha. */
  function Rgba(p: bv32): (b: seq<bv8>)
    ensures |b| == 4
  {
    [((p >> 16) & 0xFF) as bv8, ((p >> 8) & 0xFF) as bv8, (p & 0xFF) as bv8, ((p >> 24) & 0xFF) as bv8]
  }

  /** No channel is lost: the ARGB int can be put back together from its four bytes. */
  lemma RgbaRoundTrip(p: bv32)
    ensures var b := Rgba(p);
      ((b[3] as bv32) << 24) | ((b[0] as bv32) << 16) | ((b[1] as bv32) << 8) | (b[2] as bv32) == p
  {
  }

  /** The bytes of one row, left to right. */
  function RowBytes(row: seq<bv32>): (b: seq<bv8>)
    ensures |b| == 4 * |row|
  {
    if row == [] then [] else RowBytes(row[..|row| - 1]) + Rgba(row[|row| - 1])
  }

  /** The bytes of a raster with its rows in bottom-to-top order. */
  function BottomUpBytes(rows: seq<seq<bv32>>): (b: seq<bv8>)
  {
    if rows == [] then [] else BottomUpBytes(rows[1..]) + RowBytes(rows[0])
  }

  lemma {:induction false} RowBytesAppend(a: seq<bv32>, b: seq<bv32>)
    ensures RowBytes(a + b) == RowBytes(a) + RowBytes(b)
    decreases |b|
  {
    if b != [] {
      assert (a + b)[..|a + b| - 1] == a + b[..|b| - 1];
      RowBytesAppend(a, b[..|b| - 1]);
    } else {
      assert a + b == a;
    }
  }

  lemma {:induction false} BottomUpBytesAppend(a: seq<seq<bv32>>, b: seq<seq<bv32>>)
    ensures BottomUpBytes(a + b) == BottomUpBytes(b) + BottomUpBytes(a)
    decreases |a|
  {
    if a != [] {
      assert (a + b)[1..] == a[1..] + b;
      BottomUpBytesAppend(a[1..], b);
    } else {
      assert a + b == b;
    }
  }

  lemma {:induction false} BottomUpBytesLength(rows: seq<seq<bv32>>, w: nat, h: nat)
    requires IsRaster(rows, w, h)
    ensures |BottomUpBytes(rows)| == 4 * (w * h)
    decreases h
  {
    if h > 0 {
      BottomUpBytesLength(rows[1..], w, h - 1);
      RowStart(h - 1, w);
    }
  }

  /** The bytes of row y sit between those of the rows below it and those above it. */
  lemma BottomUpSplit(rows: seq<seq<bv32>>, y: nat)
    requires y < |rows|
    ensures BottomUpBytes(rows) == BottomUpBytes(rows[y + 1..]) + RowBytes(rows[y]) + BottomUpBytes(rows[..y])
  {
    AroundIndex(rows, y);
    BottomUpThree(rows[..y], rows[y], rows[y + 1..]);
  }

  lemma BottomUpThree(above: seq<seq<bv32>>, row: seq<bv32>, below: seq<seq<bv32>>)
    ensures BottomUpBytes(above + [row] + below) == BottomUpBytes(below) + RowBytes(row) + BottomUpBytes(above)
  {
    BottomUpBytesAppend(above + [row], below);
    BottomUpBytesAppend(above, [row]);
    BottomUpSingle(row);
  }

  lemma BottomUpSingle(row: seq<bv32>)
    ensures BottomUpBytes([row]) == RowBytes(row)
  {
    assert [row][1..] == [];
  }

  /** The bytes of pixel x sit between those of the pixels left and right of it. */
  lemma RowSplit(row: seq<bv32>, x: nat)
    requires x < |row|
    ensures RowBytes(row) == RowBytes(row[..x]) + Rgba(row[x]) + RowBytes(row[x + 1..])
  {
    AroundIndex(row, x);
    RowThree(row[..x], row[x], row[x + 1..]);
  }

  lemma RowThree(left: seq<bv32>, p: bv32, right: seq<bv32>)
    ensures RowBytes(left + [p] + right) == RowBytes(left) + Rgba(p) + RowBytes(right)
  {
    RowBytesAppend(left + [p], right);
    RowBytesAppend(left, [p]);
    assert RowBytes([p]) == Rgba(p) by {
      assert [p][..0] == [];
    }
  }

  lemma AroundIndex<T>(s: seq<T>, i: nat)
    requires i < |s|
    ensures s == s[..i] + [s[i]] + s[i + 1..]
  {
  }

  lemma SliceMiddle<T>(a: seq<T>, b: seq<T>, c: seq<T>)
    ensures (a + b + c)[|a|..|a| + |b|] == b
  {
    assert forall k | 0 <= k < |b| :: (a + b + c)[|a|..|a| + |b|][k] == b[k];
  }

  /** Where the four bytes of pixel (x, y) start in the upload of an h-row raster of
      width w: after the h - 1 - y rows below it and the x pixels to its left. */
  function ByteIndex(w: nat, h: nat, x: nat, y: nat): nat
    requires y < h
  {
    4 * ((h - 1 - y) * w + x)
  }

  lemma ByteOffset(w: nat, h: nat, x: nat, y: nat)
    requires x < w && y < h
    ensures ByteIndex(w, h, x, y) == 4 * (w * (h - 1 - y)) + 4 * x
    ensures ByteIndex(w, h, x, y) + 4 <= 4 * (w * h)
  {
    RowStart(h - 1 - y, w);
    MulMono(h - y, h, w);
  }

  /** The GPU gets w * h * 4 bytes, and the four bytes of atlas pixel (x, y) come after
      those of the h - 1 - y rows below it and the x pixels to its left: row 0 of the
      texture is the bottom row of the atlas. */
  lemma PixelBytesAt(rows: seq<seq<bv32>>, w: nat, h: nat, x: nat, y: nat)
    requires IsRaster(rows, w, h) && x < w && y < h
    ensures |BottomUpBytes(rows)| == 4 * (w * h)
    ensures var at := ByteIndex(w, h, x, y);
      at + 4 <= |BottomUpBytes(rows)| && BottomUpBytes(rows)[at..at + 4] == Rgba(rows[y][x])
  {
    BottomUpBytesLength(rows, w, h);
    PixelBytesSplit(rows, x, y);
    PixelBytesIndex(rows, w, h, x, y);
    MiddleAt(BottomUpBytes(rows), BottomUpBytes(rows[y + 1..]), RowBytes(rows[y][..x]), Rgba(rows[y][x]),
             RowBytes(rows[y][x + 1..]), BottomUpBytes(rows[..y]));
  }

  /** The upload is the rows below row y, then the pixels of row y left of x, pixel x and
      the rest of row y, then the rows above. */
  lemma PixelBytesSplit(rows: seq<seq<bv32>>, x: nat, y: nat)
    requires y < |rows| && x < |rows[y]|
    ensures BottomUpBytes(rows)
         == BottomUpBytes(rows[y + 1..]) + (RowBytes(rows[y][..x]) + Rgba(rows[y][x]) + RowBytes(rows[y][x + 1..]))
            + BottomUpBytes(rows[..y])
  {
    BottomUpSplit(rows, y);
    RowSplit(rows[y], x);
  }

  /** The bytes before pixel (x, y) number ByteIndex(w, h, x, y). */
  lemma PixelBytesIndex(rows: seq<seq<bv32>>, w: nat, h: nat, x: nat, y: nat)
    requires IsRaster(rows, w, h) && x < w && y < h
    ensures |BottomUpBytes(rows[y + 1..])| + |RowBytes(rows[y][..x])| == ByteIndex(w, h, x, y)
  {
    BottomUpBytesLength(rows[y + 1..], w, h - 1 - y);
    ByteOffset(w, h, x, y);
  }

  /** In b + (l + m + r) + t, the part m starts after b and l. */
  lemma MiddleAt<T>(s: seq<T>, b: seq<T>, l: seq<T>, m: seq<T>, r: seq<T>, t: seq<T>)
    requires s == b + (l + m + r) + t
    ensures |b| + |l| + |m| <= |s| && s[|b| + |l|..|b| + |l| + |m|] == m
  {
    assert s == (b + l) + m + (r + t);
    SliceMiddle(b + l, m, r + t);
  }

  lemma RowBytesStep(row: seq<bv32>, x: nat)
    requires x < |row|
    ensures RowBytes(row[..x + 1]) == RowBytes(row[..x]) + Rgba(row[x])
  {
    assert row[..x + 1][..x] == row[..x];
  }

  /** The upload loop of uploadToGL: rows from bottom to top, pixels left to right, each
      put as red, green, blue, alpha. */
  method RgbaBottomUp(pixels: array2<bv32>) returns (bytes: seq<bv8>)
    ensures bytes == BottomUpBytes(RowsOf(pixels))
  {
    ghost var rows := RowsOf(pixels);
    bytes := [];
    var y := pixels.Length0 - 1;
    while y >= 0
      invariant -1 <= y < pixels.Length0
      invariant bytes == BottomUpBytes(rows[y + 1..])
    {
      var rowBytes := RowRgba(pixels, y);
      bytes := bytes + rowBytes;
      assert rows[y..][1..] == rows[y + 1..];
      y := y - 1;
    }
    assert rows[0..] == rows;
  }

  /** The inner loop of the upload: the pixels of row y, left to right. */
  method RowRgba(pixels: array2<bv32>, y: nat) returns (bytes: seq<bv8>)
    requires y < pixels.Length0
    ensures bytes == RowBytes(RowsOf(pixels)[y])
  {
    ghost var row := RowsOf(pixels)[y];
    bytes := [];
    var x := 0;
    while x < pixels.Length1
      invariant 0 <= x <= pixels.Length1
      invariant bytes == RowBytes(row[..x])
    {
      var argb := pixels[y, x];
      var a := ((argb >> 24) & 0xFF) as bv8;
      var r := ((argb >> 16) & 0xFF) as bv8;
      var g := ((argb >> 8) & 0xFF) as bv8;
      var b := (argb & 0xFF) as bv8;
      assert [r, g, b, a] == Rgba(argb);
      RowBytesStep(row, x);
      bytes := bytes + [r, g, b, a];
      x := x + 1;
    }
    assert row[..x] == row;
  }

  // ---------------------------------------------------------------------------
  // The atlas object

  /** A texture-space rectangle {u0, v0, u1, v1}; v grows upwards as in OpenGL. */
  datatype UVRect = UVRect(u0: real, v0: real, u1: real, v1: real)

  /** Entry of the tile list matching name, or -1 (List.indexOf). */
  function IndexOf(names: seq<string>, name: string): (i: int)
    ensures -1 <= i < |names|
    ensures i == -1 <==> name !in names
    ensures 0 <= i ==> i < |names| && names[i] == name && name !in names[..i]
  {
    if names == [] then -1
    else if names[0] == name then 0
    else
      var j := IndexOf(names[1..], name);
      assert names == [names[0]] + names[1..];
      if j == -1 then -1
      else
        assert names[..j + 1] == [names[0]] + names[1..][..j];
        j + 1
  }

  /** The first position holding name is the one IndexOf finds. */
  lemma IndexOfFirst(names: seq<string>, name: string, i: nat)
    requires i < |names| && names[i] == name && name !in names[..i]
    ensures IndexOf(names, name) == i
  {
  }

  class TextureAtlas {
    const atlasWidth: nat
    const atlasHeight: nat
    const tileW: nat
    const tileH: nat
    const tilesPerRow: nat
    const tilesPerColumn: nat
    const padding: nat
    const tileNames: seq<string>
    /** ARGB pixels, top row first. */
    const pixels: array2<bv32>
    /** The bytes of the GPU texture once uploaded; None until uploadToGL. */
    var texture: Option<seq<bv8>>

    /** What buildFromPackage, the only caller of the constructor, guarantees: the atlas is
        a whole grid of tiles, at least one name, no more names than cells. */
    predicate Valid()
    {
      tileW > 0 && tileH > 0 &&
      tilesPerRow > 0 && tilesPerColumn > 0 &&
      atlasWidth == tilesPerRow * tileW && atlasHeight == tilesPerColumn * tileH &&
      0 < |tileNames| <= tilesPerRow * tilesPerColumn &&
      pixels.Length0 == atlasHeight && pixels.Length1 == atlasWidth
    }

    constructor (atlasWidth: nat, atlasHeight: nat, tileW: nat, tileH: nat, padding: nat,
                 tileNames: seq<string>, pixels: array2<bv32>)
      requires tileW > 0 && tileH > 0 && atlasWidth >= tileW && atlasHeight >= tileH
      requires atlasWidth % tileW == 0 && atlasHeight % tileH == 0
      requires 0 < |tileNames| <= (atlasWidth / tileW) * (atlasHeight / tileH)
      requires pixels.Length0 == atlasHeight && pixels.Length1 == atlasWidth
      ensures Valid() && texture == None
      ensures this.atlasWidth == atlasWidth && this.atlasHeight == atlasHeight
      ensures this.tileW == tileW && this.tileH == tileH && this.padding == padding
      ensures this.tilesPerRow == atlasWidth / tileW && this.tilesPerColumn == atlasHeight / tileH
      ensures this.tileNames == tileNames && this.pixels == pixels
    {
      this.atlasWidth := atlasWidth;
      this.atlasHeight := atlasHeight;
      this.tileW := tileW;
      this.tileH := tileH;
      this.tilesPerRow := atlasWidth / tileW;
      this.tilesPerColumn := atlasHeight / tileH;
      this.tileNames := tileNames;
      this.pixels := pixels;
      this.padding := padding;
      texture := None;
    }

    /** uploadToGL: the first call converts the pixels and keeps the bytes as the
        texture; later calls change nothing. */
    method UploadToGL()
      modifies this
      ensures old(texture).Some? ==> texture == old(texture)
      ensures old(texture).None? ==> texture == Some(BottomUpBytes(RowsOf(pixels)))
    {
      if texture.Some? {
        return;
      }
      var bytes := RgbaBottomUp(pixels);
      texture := Some(bytes);
    }

    /** getTexture: uploads when needed, then returns the texture. */
    method GetTexture() returns (t: seq<bv8>)
      modifies this
      ensures old(texture).Some? ==> texture == old(texture)
      ensures texture == Some(t) && (old(texture).None? ==> t == BottomUpBytes(RowsOf(pixels)))
    {
      if texture.None? {
        UploadToGL();
      }
      t := texture.value;
    }

    /** The tile index getUVRect works with: clamped into [0, number of tiles). */
    function ClampTile(tileIndex: int): (t: nat)
      requires Valid()
      ensures t < |tileNames|
      ensures 0 <= tileIndex < |tileNames| ==> t == tileIndex
      ensures tileIndex < 0 ==> t == 0
      ensures tileIndex >= |tileNames| ==> t == |tileNames| - 1
    {
      var t := if tileIndex < 0 then 0 else tileIndex;
      if t >= |tileNames| then |tileNames| - 1 else t
    }

    /** Column and row of a tile in the grid, filled row by row. */
    function TileCell(tileIndex: int): (cell: (nat, nat))
      requires Valid()
      ensures cell.0 < tilesPerRow && cell.1 < tilesPerColumn
      ensures cell.1 * tilesPerRow + cell.0 == ClampTile(tileIndex)
    {
      var t := ClampTile(tileIndex);
      RowBelow(t, tilesPerRow, tilesPerColumn);
      (t % tilesPerRow, t / tilesPerRow)
    }

    /** getUVRect: the cell of the tile, shrunk by the padding on every side, with each
        pair of bounds put in order. */
    function GetUVRect(tileIndex: int): (uv: UVRect)
      requires Valid()
      ensures uv.u0 <= uv.u1 && uv.v0 <= uv.v1
    {
      var (col, row) := TileCell(tileIndex);
      var w, h := atlasWidth as real, atlasHeight as real;
      var u0 := (col * tileW) as real / w + padding as real / w;
      var u1 := ((col + 1) * tileW) as real / w - padding as real / w;
      var v0 := 1.0 - ((row + 1) * tileH) as real / h + padding as real / h;
      var v1 := 1.0 - (row * tileH) as real / h - padding as real / h;
      UVRect(if u0 > u1 then u1 else u0, if v0 > v1 then v1 else v0,
             if u0 > u1 then u0 else u1, if v0 > v1 then v0 else v1)
    }

    /** getTileIndex: position of the first tile with this name, or -1. */
    method GetTileIndex(name: string) returns (i: int)
      ensures i == IndexOf(tileNames, name)
    {
      i := 0;
      while i < |tileNames|
        invariant 0 <= i <= |tileNames|
        invariant name !in tileNames[..i]
      {
        if tileNames[i] == name {
          IndexOfFirst(tileNames, name, i);
          return;
        }
        assert tileNames[..i + 1] == tileNames[..i] + [tileNames[i]];
        i := i + 1;
      }
      assert tileNames[..i] == tileNames;
      i := -1;
    }
  }

  /** Without padding, the rectangle of a tile is its grid cell scaled into the unit
      square: u from col/tilesPerRow to (col+1)/tilesPerRow, v measured from the bottom. */
  lemma UVRectIsCell(atlas: TextureAtlas, tileIndex: int)
    requires atlas.Valid() && atlas.padding == 0
    ensures var (col, row) := atlas.TileCell(tileIndex);
      var uv := atlas.GetUVRect(tileIndex);
      var cols, rows := atlas.tilesPerRow as real, atlas.tilesPerColumn as real;
      && uv.u0 == col as real / cols && uv.u1 == (col + 1) as real / cols
      && uv.v0 == 1.0 - (row + 1) as real / rows && uv.v1 == 1.0 - row as real / rows
  {
    var (col, row) := atlas.TileCell(tileIndex);
    var w, h := atlas.atlasWidth as real, atlas.atlasHeight as real;
    var cols, rows := atlas.tilesPerRow as real, atlas.tilesPerColumn as real;
    ScaledCell(col, atlas.tileW, atlas.tilesPerRow);
    ScaledCell(col + 1, atlas.tileW, atlas.tilesPerRow);
    ScaledCell(row, atlas.tileH, atlas.tilesPerColumn);
    ScaledCell(row + 1, atlas.tileH, atlas.tilesPerColumn);
    assert 0 as real / w == 0.0 && 0 as real / h == 0.0;
    QuotientsOrdered(col, atlas.tilesPerRow);
    QuotientsOrdered(row, atlas.tilesPerColumn);
  }

  /** c / n < (c + 1) / n over the reals. */
  lemma QuotientsOrdered(c: nat, n: nat)
    requires n > 0
    ensures c as real / n as real < (c + 1) as real / n as real
  {
    var q, q' := c as real / n as real, (c + 1) as real / n as real;
    assert q * n as real == c as real && q' * n as real == c as real + 1.0;
    assert (q' - q) * n as real == 1.0;
  }

  lemma ScaledCell(c: nat, tile: nat, count: nat)
    requires tile > 0 && count > 0
    ensures (c * tile) as real / (count * tile) as real == c as real / count as real
  {
    var t := tile as real;
    assert (c * tile) as real == c as real * t;
    assert (count * tile) as real == count as real * t;
  }

  /** Without padding every tile rectangle lies in the unit square and has positive area. */
  lemma UVRectInUnitSquare(atlas: TextureAtlas, tileIndex: int)
    requires atlas.Valid() && atlas.padding == 0
    ensures var uv := atlas.GetUVRect(tileIndex);
      0.0 <= uv.u0 < uv.u1 <= 1.0 && 0.0 <= uv.v0 < uv.v1 <= 1.0
  {
    UVRectIsCell(atlas, tileIndex);
    var (col, row) := atlas.TileCell(tileIndex);
    FractionBounds(col, atlas.tilesPerRow);
    FractionBounds(row, atlas.tilesPerColumn);
  }

  lemma FractionBounds(c: nat, n: nat)
    requires c < n
    ensures 0.0 <= c as real / n as real < (c + 1) as real / n as real <= 1.0
  {
  }

  // ---------------------------------------------------------------------------
  // buildFromPackage

  /** What looking up and decoding a resource yields: no such resource, bytes that
      ImageIO cannot decode, or a decoded image. */
  datatype Fetched = Missing | Undecodable | Decoded(image: DecodedImage)

  function ResourcePath(packagePath: string, filename: string): string
  {
    packagePath + "/" + filename
  }

  /** The load loop over the sorted names: every image in order, or the IOException of
      the first resource that is missing or does not decode. */
  function LoadImages(packagePath: string, pngs: seq<string>, fetch: string -> Fetched): (r: Result<seq<DecodedImage>, string>)
    ensures r.Success? <==> forall i | 0 <= i < |pngs| :: fetch(ResourcePath(packagePath, pngs[i])).Decoded?
    ensures r.Success? ==> (|r.value| == |pngs| &&
      forall i | 0 <= i < |pngs| :: fetch(ResourcePath(packagePath, pngs[i])) == Decoded(r.value[i]))
  {
    if pngs == [] then Success([])
    else
      var prefix := LoadImages(packagePath, pngs[..|pngs| - 1], fetch);
      var resource := ResourcePath(packagePath, pngs[|pngs| - 1]);
      if prefix.Failure? then prefix
      else match fetch(resource)
        case Missing => Failure("Missing texture resource: " + resource)
        case Undecodable => Failure("Failed to decode image: " + resource)
        case Decoded(img) => Success(prefix.value + [img])
  }

  /** The message of a failed load: it names the resource that failed. */
  function LoadError(packagePath: string, filename: string, fetched: Fetched): string
  {
    var resource := ResourcePath(packagePath, filename);
    if fetched.Missing? then "Missing texture resource: " + resource else "Failed to decode image: " + resource
  }

  /** Loading stops at the first bad resource, whatever follows it. */
  lemma {:induction false} LoadStopsAtFirstFailure(packagePath: string, pngs: seq<string>, fetch: string -> Fetched, j: nat)
    requires j < |pngs| && !fetch(ResourcePath(packagePath, pngs[j])).Decoded?
    requires forall i | 0 <= i < j :: fetch(ResourcePath(packagePath, pngs[i])).Decoded?
    ensures LoadImages(packagePath, pngs, fetch) == Failure(LoadError(packagePath, pngs[j], fetch(ResourcePath(packagePath, pngs[j]))))
    decreases |pngs|
  {
    if j < |pngs| - 1 {
      var init := pngs[..|pngs| - 1];
      assert init[j] == pngs[j];
      LoadStopsAtFirstFailure(packagePath, init, fetch, j);
    } else {
      var init := pngs[..|pngs| - 1];
      assert forall i | 0 <= i < |init| :: init[i] == pngs[i];
    }
  }

  function Max(a: int, b: int): int
  {
    if a >= b then a else b
  }

  /** The largest width of the images, 0 for none. */
  function MaxWidth(images: seq<DecodedImage>): (m: nat)
    ensures forall i | 0 <= i < |images| :: images[i].width <= m
    ensures images != [] ==> exists i | 0 <= i < |images| :: images[i].width == m
  {
    if images == [] then 0
    else Max(MaxWidth(images[..|images| - 1]), images[|images| - 1].width)
  }

  /** The largest height of the images, 0 for none. */
  function MaxHeight(images: seq<DecodedImage>): (m: nat)
    ensures forall i | 0 <= i < |images| :: images[i].height <= m
    ensures images != [] ==> exists i | 0 <= i < |images| :: images[i].height == m
  {
    if images == [] then 0
    else Max(MaxHeight(images[..|images| - 1]), images[|images| - 1].height)
  }

  /** The tile names of the loaded files, in load order. */
  function TileNames(pngs: seq<string>): (names: seq<string>)
    ensures |names| == |pngs| && forall i | 0 <= i < |pngs| :: names[i] == TileName(pngs[i])
  {
    seq(|pngs|, i requires 0 <= i < |pngs| => TileName(pngs[i]))
  }

  /** The grid buildFromPackage lays n > 0 tiles out on holds them all. */
  lemma GridFits(images: seq<DecodedImage>)
    requires images != []
    ensures var cols := CeilSqrt(|images|);
      LayoutFits(images, cols, CeilDiv(|images|, cols), MaxWidth(images), MaxHeight(images))
  {
    GridHoldsTiles(|images|, 0);
  }

  lemma DivExact(c: nat, t: nat)
    requires t > 0
    ensures (c * t) / t == c && (c * t) % t == 0
  {
    var q, r := (c * t) / t, (c * t) % t;
    assert (c - q) * t == r;
    if c > q {
      MulMono(1, c - q, t);
    }
  }

  /** The sizes buildFromPackage hands to the TextureAtlas constructor meet its needs. */
  lemma AtlasDimensions(images: seq<DecodedImage>)
    requires images != []
    ensures var n, tileW, tileH := |images|, MaxWidth(images), MaxHeight(images);
      var cols := CeilSqrt(n);
      var rows := CeilDiv(n, cols);
      && tileW > 0 && tileH > 0 && cols * tileW >= tileW && rows * tileH >= tileH
      && (cols * tileW) % tileW == 0 && (rows * tileH) % tileH == 0
      && (cols * tileW) / tileW == cols && (rows * tileH) / tileH == rows
      && n <= cols * rows
  {
    var n, tileW, tileH := |images|, MaxWidth(images), MaxHeight(images);
    var cols := CeilSqrt(n);
    var rows := CeilDiv(n, cols);
    GridHoldsTiles(n, 0);
    DivExact(cols, tileW);
    DivExact(rows, tileH);
    MulMono(1, cols, tileW);
    MulMono(1, rows, tileH);
  }

  lemma TileNamesStep(pngs: seq<string>, k: nat)
    requires k < |pngs|
    ensures TileNames(pngs[..k + 1]) == TileNames(pngs[..k]) + [TileName(pngs[k])]
  {
  }

  lemma LoadImagesStep(packagePath: string, pngs: seq<string>, fetch: string -> Fetched, k: nat, images: seq<DecodedImage>)
    requires k < |pngs| && LoadImages(packagePath, pngs[..k], fetch) == Success(images)
    requires fetch(ResourcePath(packagePath, pngs[k])).Decoded?
    ensures LoadImages(packagePath, pngs[..k + 1], fetch) == Success(images + [fetch(ResourcePath(packagePath, pngs[k])).image])
  {
    assert pngs[..k + 1][..k] == pngs[..k];
  }

  lemma LoadFailsAt(packagePath: string, pngs: seq<string>, fetch: string -> Fetched, k: nat, images: seq<DecodedImage>)
    requires k < |pngs| && LoadImages(packagePath, pngs[..k], fetch) == Success(images)
    requires !fetch(ResourcePath(packagePath, pngs[k])).Decoded?
    ensures LoadImages(packagePath, pngs, fetch) == Failure(LoadError(packagePath, pngs[k], fetch(ResourcePath(packagePath, pngs[k]))))
  {
    assert forall i | 0 <= i < k :: pngs[..k][i] == pngs[i];
    LoadStopsAtFirstFailure(packagePath, pngs, fetch, k);
  }

  /** The load loop of buildFromPackage: each sorted name in turn is looked up and
      decoded, its tile name recorded and the largest width and height kept. */
  method LoadTiles(packagePath: string, pngs: seq<string>, fetch: string -> Fetched)
    returns (loaded: Result<seq<DecodedImage>, string>, names: seq<string>, maxW: nat, maxH: nat)
    ensures loaded == LoadImages(packagePath, pngs, fetch)
    ensures loaded.Success? ==>
      names == TileNames(pngs) && maxW == MaxWidth(loaded.value) && maxH == MaxHeight(loaded.value)
  {
    var images: seq<DecodedImage> := [];
    names := [];
    maxW, maxH := 0, 0;
    for k := 0 to |pngs|
      invariant LoadImages(packagePath, pngs[..k], fetch) == Success(images)
      invariant names == TileNames(pngs[..k])
      invariant maxW == MaxWidth(images) && maxH == MaxHeight(images)
    {
      var filename := pngs[k];
      var resource := packagePath + "/" + filename;
      var fetched := fetch(resource);
      if !fetched.Decoded? {
        LoadFailsAt(packagePath, pngs, fetch, k, images);
        if fetched.Missing? {
          return Failure("Missing texture resource: " + resource), names, maxW, maxH;
        }
        return Failure("Failed to decode image: " + resource), names, maxW, maxH;
      }
      var img := fetched.image;
      LoadImagesStep(packagePath, pngs, fetch, k, images);
      images := images + [img];
      var name := filename;
      if EndsWith(name, ".png") {
        name := name[..|name| - 4];
      }
      assert name == TileName(filename);
      TileNamesStep(pngs, k);
      names := names + [name];
      maxW := Max(maxW, img.width);
      maxH := Max(maxH, img.height);
    }
    assert pngs[..|pngs|] == pngs;
    loaded := Success(images);
  }

  /** buildFromPackage over a listing of the package directory: keep the PNG names,
      sort them, load every image, lay the tiles out on a near-square grid of cells as
      large as the largest image, and copy each image into its cell. */
  method BuildFromPackage(packagePath: string, files: seq<string>, fetch: string -> Fetched)
    returns (r: Result<TextureAtlas, string>)
    ensures var pngs := SortStrings(PngNames(files));
      r.Failure? <==> pngs == [] || LoadImages(packagePath, pngs, fetch).Failure?
    ensures var pngs := SortStrings(PngNames(files));
      r.Failure? ==> r.error == if pngs == [] then "No PNG textures found in package: " + packagePath
                                else LoadImages(packagePath, pngs, fetch).error
    ensures r.Success? ==>
      var pngs := SortStrings(PngNames(files));
      var images := LoadImages(packagePath, pngs, fetch).value;
      var atlas := r.value;
      && images != [] && fresh(atlas) && fresh(atlas.pixels)
      && atlas.Valid() && atlas.texture == None && atlas.padding == 0
      && atlas.tileNames == TileNames(pngs)
      && atlas.tileW == MaxWidth(images) && atlas.tileH == MaxHeight(images)
      && atlas.tilesPerRow == CeilSqrt(|images|)
      && atlas.tilesPerColumn == CeilDiv(|images|, CeilSqrt(|images|))
      && (GridFits(images);
          Shows(atlas.pixels, AtlasPixels(images, atlas.tilesPerRow, atlas.tilesPerColumn, atlas.tileW, atlas.tileH)))
  {
    var pngs := FilterPngs(files);
    pngs := SortStrings(pngs);
    if |pngs| == 0 {
      return Failure("No PNG textures found in package: " + packagePath);
    }
    var loaded, names, maxW, maxH := LoadTiles(packagePath, pngs, fetch);
    if loaded.Failure? {
      return Failure(loaded.error);
    }
    var images := loaded.value;
    var n := |images|;
    var cols := CeilSqrt(n);
    var rows := CeilDiv(n, cols);
    var tileW, tileH := maxW, maxH;
    GridFits(images);
    var pixels := ComposeAtlas(images, cols, rows, tileW, tileH);
    AtlasDimensions(images);
    var atlas := new TextureAtlas(cols * tileW, rows * tileH, tileW, tileH, 0, names, pixels);
    return Success(atlas);
  }
}
