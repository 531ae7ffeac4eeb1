# Thumbnail geometry and FizzBuzz, modelled in Dafny

This project models the two pieces of logic in the repository.

The first is the geometry of `ThumbnailService`. Given the size of a source image, a requested frame and a `ResizeMode`, it computes:

- the canvas to allocate. `Crop` and `Letterbox` take the frame as it is. `Loose` keeps the source's aspect ratio and fits it inside the frame.
- the centred sub-rectangle of the source to sample so that it fills the canvas.

The second is the FizzBuzz console program. It writes one label for each count from 1 to 100.

Files:

- `thumbnail_service.dfy`, module `ThumbnailService`: the `ResizeMode`, `Rectangle`, `Point` and `Size` datatypes. The functions `CalculateCanvasRectangle`, `CalculateCropZoomRectangle` and `CenterRectangle`. `ThumbnailGeometry`, the size computations at the start of `GetThumbnailImage`. Lemmas about all of them.
- `fizzbuzz.dfy`, module `FizzBuzz`: the label expression as the function `Label`. The decimal rendering of a count. The loop of `Main` as the method `Run`, which returns the lines written to the console as a `seq<string>`.

Arithmetic. The service computes with single-precision `float`. The model uses exact arithmetic, on purpose:

- An aspect-ratio comparison `sw/sh > tw/th` is the cross-multiplied `sw*th > tw*sh`. This is the predicate `RelativelyWider`.
- Each truncating cast `(int)(a * (b/c))` or `(int)(a / (c/b))` of a non-negative value is the floor of the exact rational `a*b/c`. This is `FloorScale`.
- The centring cast `(int)(d / 2.0)` truncates toward zero. This is `HalfTowardZero`, and it is correct for a negative `d` too.

Three behaviours of the code that are easy to misread:

- Centring. The centring offset `(int)(d / 2.0)` truncates toward zero; it does not round to nearest. When the slack is odd, the extra pixel goes after the sample.
- Letterbox. The enum's documentation says `Letterbox` draws the entire image and pads the frame. `GetThumbnailImage` always samples the crop-zoom rectangle and stretches it over the whole canvas. So `Letterbox` samples exactly what `Crop` samples (`LetterboxSamplesLikeCrop`). In both modes the canvas is first filled with the padding colour and the sample is then drawn over all of it; how the edge pixels blend is not modelled (see "## Left out").
- Degenerate sizes. The code does not check for zero or negative sizes. The only failure in the computed geometry is `new Bitmap`, which throws `ArgumentException` for a canvas with a side that is zero or less. `ThumbnailGeometry` returns `Err(InvalidCanvasSize)` there.
  - `Crop` and `Letterbox` hit this with a non-positive frame.
  - `Loose` hits it with a very wide or very tall source, where the shrunk side rounds down to 0. For example, a 2000×1 source in an 800×800 frame gives an 800×0 canvas.

## Model

| member | source | states |
|---|---|---|
| `ThumbnailService.CalculateCanvasRectangle` | LossOfColorBug/Services/ThumbnailService.cs:40-69 | The canvas is at (0,0). `Crop`/`Letterbox` give exactly the frame. In `Loose`, a relatively wider source fills the width, and the height is the floor of sh·tw/sw, strictly below the frame height. Otherwise, including equal ratios, it fills the height, and the width is the floor of sw·th/sh, at most the frame width. A `Loose` canvas fits the frame and is equal to it on at least one side. |
| `ThumbnailService.FloorScale` | LossOfColorBug/Services/ThumbnailService.cs:56-64 | The truncating cast of a non-negative scaled size is the floor: q·den ≤ a·num < q·den + den. |
| `ThumbnailService.LooseCanvasSides` | LossOfColorBug/Services/ThumbnailService.cs:51-66 | A `Loose` canvas has both sides positive exactly when the shrunk side keeps a pixel: sh·tw ≥ sw for a relatively wider source, sw·th ≥ sh otherwise. |
| `ThumbnailService.EqualAspectLooseCanvasIsFrame` | LossOfColorBug/Services/ThumbnailService.cs:60-65 | When the aspect ratios are equal, the tie goes to the height branch and the `Loose` canvas is the whole frame. |
| `ThumbnailService.CalculateCropZoomRectangle` | LossOfColorBug/Services/ThumbnailService.cs:72-100 | A relatively wider source keeps its full height. Its sample width is the floor of tw·sh/th, strictly less than the source width. Otherwise the sample keeps the full width, and its height is the floor of th·sw/tw, at most the source height. One side is always full. The sample lies inside the source. It is centred: the margin after it exceeds the margin before it by 0 or 1 pixel on each axis. |
| `ThumbnailService.CenterRectangle` | LossOfColorBug/Services/ThumbnailService.cs:102-108 | For non-negative slack, the offset is non-negative, and the margin after minus the margin before is 0 or 1. For negative slack, the offset is non-positive and that difference is 0 or −1. This holds on each axis. |
| `ThumbnailService.HalfTowardZero` | LossOfColorBug/Services/ThumbnailService.cs:105-106 | The `(int)(d / 2.0)` cast halves d and rounds toward zero. For d ≥ 0 it gives 0 ≤ 2h and d − 2h ∈ {0,1}. For d < 0 it gives 2h ≤ 0 and d − 2h ∈ {−1,0}. |
| `ThumbnailService.ThumbnailGeometry` | LossOfColorBug/Services/ThumbnailService.cs:8-13 | Within the model, bitmap allocation fails exactly on a canvas with a non-positive side: a non-positive frame for `Crop`/`Letterbox`, the condition of `LooseCanvasSides` for `Loose`. Otherwise the canvas is positive and inside the frame, and is the frame itself for `Crop`/`Letterbox`. The sample lies inside the source with one full side. |
| `ThumbnailService.EqualAspectSamplesWholeSource` | LossOfColorBug/Services/ThumbnailService.cs:86-98 | When source and canvas have equal aspect ratios, the sample is the whole source (0, 0, sw, sh). |
| `ThumbnailService.NearAspectSamplesNearlyWhole` | LossOfColorBug/Services/ThumbnailService.cs:86-98 | A canvas whose aspect ratio is within one pixel of the source's is sampled almost whole. The shortfall on each axis, times the canvas side, is less than the source's other side plus the canvas side. |
| `ThumbnailService.LooseSamplesNearlyWholeSource` | LossOfColorBug/Services/ThumbnailService.cs:10-13 | A `Loose` thumbnail draws the source whole up to rounding, with the bound of `NearAspectSamplesNearlyWhole`. |
| `ThumbnailService.LetterboxSamplesLikeCrop` | LossOfColorBug/Services/ThumbnailService.cs:46-50 | `Letterbox` and `Crop` give identical geometry, the error case included. |
| `ThumbnailService.WorkedExamples` | LossOfColorBug/Services/ThumbnailService.cs:40-100 | 1600×1200 into 800×800 gives an 800×600 `Loose` canvas, an 800×800 `Crop` canvas, and the sample (200, 0, 1200, 1200). 1000×2000 into 800×800 samples (0, 500, 1000, 1000). 500×500 into 500×500 samples the whole source. 2000×1 into 800×800 `Loose` fails to allocate the canvas. |
| `FizzBuzz.NatToString` | FizzBuzz/FizzBuzz/Program.cs:12 | The decimal numeral of a count is non-empty and all digits. It starts with '0' exactly when the count is 0, and is then "0": there is no leading zero. |
| `FizzBuzz.NatToStringRoundTrip` | FizzBuzz/FizzBuzz/Program.cs:12 | Reading the numeral back gives the count: the value of `NatToString(n)` is n. |
| `FizzBuzz.IntToString` | FizzBuzz/FizzBuzz/Program.cs:12 | A numeral starts with a digit exactly when n ≥ 0, and with '-' exactly when n < 0. |
| `FizzBuzz.IntToStringValue` | FizzBuzz/FizzBuzz/Program.cs:12 | The numeral denotes n: for n ≥ 0 it is all digits with value n; for n < 0 the digits after the '-' have value −n. |
| `FizzBuzz.Label` | FizzBuzz/FizzBuzz/Program.cs:11-12 | The line is a word (starting with 'F' or 'B') exactly when n is a multiple of 3 or of 5, and a numeral otherwise. The full case analysis is `LabelCases`, the mod-15 table `LabelByResidue`, the exclusivity of the cases `RenderInjective`, and the value of the numeral `NumberLabelDenotesCount`. |
| `FizzBuzz.NumberLabelDenotesCount` | FizzBuzz/FizzBuzz/Program.cs:12 | A positive count divisible by neither 3 nor 5 is written as its decimal numeral: all digits, value n, no leading zero. |
| `FizzBuzz.LabelCases` | FizzBuzz/FizzBuzz/Program.cs:11-12 | "FizzBuzz" iff divisible by 3 and 5. "Buzz" iff divisible by 5 and not 3. "Fizz" iff divisible by 3 and not 5. The numeral of n iff divisible by neither. Each case holds in both directions. |
| `FizzBuzz.LabelByResidue` | FizzBuzz/FizzBuzz/Program.cs:11-12 | The label agrees with a separate table that gives the kind of line for each residue modulo 15. So the kind of line depends only on n mod 15. |
| `FizzBuzz.RenderInjective` | FizzBuzz/FizzBuzz/Program.cs:11-12 | The four kinds of line never render to the same string, so the four cases are mutually exclusive. With `LabelByResidue`, every count falls in exactly one of them. |
| `FizzBuzz.Run` | FizzBuzz/FizzBuzz/Program.cs:9-15 | The program writes exactly 100 lines. Line i is the label of count i + 1, so the counts 1 to 100 appear in ascending order. |

## Left out

- `FloorScale`, `CalculateCanvasRectangle` and `CalculateCropZoomRectangle`: do not model IEEE single-precision rounding. The service divides and multiplies in `float`, so at some boundaries a size can differ by one pixel from the exact floor used here. The abstraction is deliberate.
- `CenterRectangle` and `HalfTowardZero`: do not model the conversion of the slack to `float`, which is exact only for slacks of magnitude at most 2^24. Beyond that the offset can differ from the exact half.
- `ThumbnailGeometry`: models only the non-positive-size failure of `new Bitmap`. A canvas too large to allocate also fails in GDI+, and that failure is not modelled.
- The edge pixels of the drawn thumbnail: `HighQualityBicubic` interpolation with the default wrap mode can blend the sample's edges with the padding colour behind them. The drawing is not modelled, so the model says nothing about pixel colours.
- C# `int` overflow: not modelled. Integers are unbounded. The service's cross-multiplied products never exist as C# `int` values, because it compares `float` ratios.
- Zero or negative source sizes, and zero or negative frames in `Loose` mode: excluded by `requires`. A decoded image always has positive sides. With a zero frame, `Loose` would divide by zero in `float`, and infinities and NaN are not modelled.
- `ResizeMode` values outside the three declared members, which C# allows by casting an integer: not modelled, because a Dafny datatype is closed. In the code, such a value matches no `case` and leaves the empty rectangle, whose zero-size bitmap would then fail.
- The drawing in `GetThumbnailImage`: the GDI+ `Bitmap`/`Graphics` calls, the fill, the smoothing and interpolation modes, `DrawImage` and the 1.5 gamma. These are foreign library calls over pixel buffers and a floating-point colour transform. Only the outcome of the bitmap size check is modelled.
- `GetImage`: file I/O through `new Bitmap(filepath)`.
- `HomeController`: HTTP/MVC plumbing, path mapping, JPEG encoding and the response stream.
- `Console.Read()` at the end of the FizzBuzz program: it only waits for input. The console itself is the returned sequence of lines.
- `Label`: C#'s `%` truncates toward zero and Dafny's is Euclidean. They agree on whether the remainder is zero, which is all the label tests. The model writes '-' for a negative number. `ToString()` would use the current culture's negative sign, and the program never formats a negative count.
