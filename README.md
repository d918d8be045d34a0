# Pixel module configuration model

This project models pyxar's in-memory configuration of a pixel-detector
readout module (`python/pixel_module.py`) and proves properties of it:

- A **Pixel** has fixed column and row coordinates, a `trim` with a
  validating setter, and a `mask` flag.
- A **DAC** is a register with a fixed number, name and bit width. Its
  `value` setter checks the value against `2^bits`.
- A **ROC** (readout chip) builds its whole `cols × rows` pixel grid and
  its DAC table when it is created. It can look up a pixel by coordinates
  and a DAC by name or by number. It can walk the grid column by column,
  or walk one column or one row. Its aggregate `mask` reads as "some pixel
  is masked" and writes as "set every pixel".
- A **TBM** (token bit manager) records a channel count.
- A **Module** holds numbered ROCs and TBMs and forwards lookups to them.

The project has three Dafny modules:

- `Values` (`values.dfy`) holds the assignment rules of the two setters as
  functions. A value to assign is tagged as a boolean, an integer, or
  something `int()` rejects. A setter call returns the stored value or the
  error it raises.
- `ColumnMajor` (`column_major.dfy`) holds the index arithmetic of the
  column-major walk.
- `PixelModule` (`pixel_module.dfy`) holds the classes `Pixel`, `Dac`, `Roc`,
  `Tbm` and `Module`:
  - The setters are methods with `modifies` frames.
  - The grid and DAC construction and the traversals are loops with
    invariants.
  - The traversals return sequences; the generators are not lazy.
  - The aggregate mask getter is the function `Roc.Masked`. It is specified
    through the column-major walk `Flatten`.

The constructors take the configuration already parsed:

- `rows` and `cols`;
- a number→name map and a number→bit-width map;
- the ROC and TBM counts and the TBM channel count.

Every DAC number must have a bit width. A missing width would be a lookup
failure in the source, so it is a constructor precondition.

The source checks only an upper bound on both setters: `< 16` for trims and
`< 2^bits` for DAC values. The model follows the code, so negative values are
accepted (`Values.NegativeValuesAccepted`). The code also does not reject
duplicate DAC names, and neither does the model. With duplicate names, the reverse name table keeps whichever number the dictionary visits
last. The model leaves that order open, and its name-lookup agreement lemma
assumes unique names.

Python booleans are integers. So the DAC setter stores `True` and `False` as
1 and 0. The trim setter treats them specially: `False` restores the default
trim of 15 and `True` is refused.

## Model

| member | source | states |
|---|---|---|
| Values.IntOf | python/pixel_module.py:31-34 | `int()` succeeds exactly on booleans (as 0/1) and integers (unchanged); a value whose `int()` raises ValueError fails with the generic exception |
| Values.AssignedTrim | python/pixel_module.py:24-37 | the trim rule: `False` gives 15, `True` is refused, an integer is accepted iff it is below 16 and is then stored unchanged, a failed check raises the assertion error, a value whose `int()` raises ValueError raises the generic exception; every accepted trim is below 16 |
| Values.AssignedDacValue | python/pixel_module.py:76-83 | the DAC rule: an integer is accepted iff it is below 2^bits and is then stored unchanged, booleans count as 0 and 1, values whose `int()` raises ValueError fail with the generic exception; every accepted value is below 2^bits |
| Values.NegativeValuesAccepted | python/pixel_module.py:35-36 | both setters accept any negative integer unchanged, because only an upper bound is checked |
| PixelModule.Pixel.constructor | python/pixel_module.py:5-9 | a new pixel has the given coordinates, trim 15 and no mask |
| PixelModule.Pixel.SetTrim | python/pixel_module.py:23-37 | the setter's outcome is the trim rule's; trim becomes the accepted value, and a failed assignment leaves the old trim in place; a trim below 16 stays below 16 |
| PixelModule.Pixel.SetMask | python/pixel_module.py:43-46 | the mask becomes the given flag and nothing else changes |
| PixelModule.Dac.constructor | python/pixel_module.py:57-61 | a new DAC has the given number, name and width (8 by default) and holds 0 |
| PixelModule.Dac.SetValue | python/pixel_module.py:75-83 | the setter's outcome is the DAC rule's; value becomes the accepted value, and a failed assignment leaves the old value in place; the value stays below 2^bits |
| PixelModule.NewGrid | python/pixel_module.py:102-107 | builds `cols` new columns of `rows` new pixels each; the pixel at column c, row r has coordinates (c, r), trim 15 and no mask |
| PixelModule.ReverseNames | python/pixel_module.py:112 | every configured name is in the reverse table, and every name maps back to a number that carries that name |
| PixelModule.NewDacs | python/pixel_module.py:113-116 | one new DAC per configured number, with that number, its name and its configured width, holding 0 |
| PixelModule.Roc.constructor | python/pixel_module.py:94-116 | the chip's pixel count is rows × cols; the grid and the DAC table are as built by the three steps above; every object is new, every trim is 15, no pixel is masked and every DAC holds 0 |
| PixelModule.Roc.PixelAt | python/pixel_module.py:134-135 | for every in-range (c, r), the pixel there has column c and row r |
| PixelModule.Roc.GetDac | python/pixel_module.py:138-142 | lookup by number succeeds iff the number is configured, and then gives that number's DAC with its configured name; lookup by name succeeds iff some number carries the name, and then gives a DAC with that name; otherwise it fails with an unknown-key error |
| PixelModule.Roc.NameAndNumberAgree | python/pixel_module.py:138-142 | with unique names, looking up a number's name gives the same DAC object as looking up the number |
| PixelModule.FlattenLength | python/pixel_module.py:145-152 | a walk over `m` columns of `n` pixels visits `m × n` pixels |
| PixelModule.FlattenAt | python/pixel_module.py:145-152 | pixel r of column c is step `c × n + r` of the walk |
| PixelModule.FlattenIndex | python/pixel_module.py:145-152 | step k of the walk is pixel `k mod n` of column `k div n` |
| PixelModule.Roc.WalkOrder | python/pixel_module.py:145-152 | the walk has `nPixels` steps, and step k has column `k div rows` and row `k mod rows` |
| PixelModule.Roc.WalkPositions | python/pixel_module.py:145-152 | every pixel (c, r) of the grid is step `c × rows + r` of the walk |
| PixelModule.Roc.WalkCoordinatesUnique | python/pixel_module.py:145-152 | no two steps of the walk have the same coordinates, so each pixel is visited exactly once |
| PixelModule.Roc.WalkCoversPixelSet | python/pixel_module.py:145-152 | every step of the walk is a pixel the chip owns |
| PixelModule.Roc.Pixels | python/pixel_module.py:145-152 | the traversal is the column-major walk: `nPixels` pixels, step k at column `k div rows` and row `k mod rows`, and pixel (c, r) at step `c × rows + r` |
| PixelModule.Roc.Column | python/pixel_module.py:155-159 | column c's traversal has `rows` pixels, all in column c, with rows ascending from 0 |
| PixelModule.Roc.Row | python/pixel_module.py:162-166 | row r's traversal has `cols` pixels, all in row r, with columns ascending from 0 |
| PixelModule.AnyMasked | python/pixel_module.py:170-171 | `any` over a pixel list: true iff some pixel in it is masked |
| PixelModule.Roc.MaskedIsSomePixel | python/pixel_module.py:169-171 | `any` over the walk is true iff some pixel of the grid is masked |
| PixelModule.Roc.Masked | python/pixel_module.py:169-171 | the chip's mask reads true iff some pixel (c, r) is masked |
| PixelModule.Roc.MaskedWhenUniform | python/pixel_module.py:169-177 | when every pixel's mask is b, the chip's mask reads b on a non-empty grid and false on an empty one |
| PixelModule.Roc.SetMask | python/pixel_module.py:174-177 | setting the chip's mask to b sets every pixel's mask to b; every trim is unchanged, and values in range stay in range; afterwards the chip's mask reads b (false on an empty grid) |
| PixelModule.Tbm.constructor | python/pixel_module.py:186-188 | a TBM records its channel count and number (0 by default) |
| PixelModule.NewRocs | python/pixel_module.py:206-207 | builds chips numbered 0 to n - 1 with the given geometry and DAC names, DAC n of every chip having width `dacBits[n]`; each is in its initial state, and no two share an object |
| PixelModule.NewTbms | python/pixel_module.py:208-209 | builds TBMs numbered 0 to n - 1 with the given channel count |
| PixelModule.Module.constructor | python/pixel_module.py:197-209 | the module holds `rocs` chips, chip i numbered i with the given geometry, DAC names and DAC widths, each in its initial state and disjoint from the others; it also holds `tbms` TBMs, TBM i numbered i |
| PixelModule.Module.RocAt | python/pixel_module.py:220-221 | chip i is a well-formed chip, distinct from every other index's chip |
| PixelModule.Module.Rocs | python/pixel_module.py:224-228 | the traversal gives chips 0 to `rocs - 1` in ascending order |
| PixelModule.Module.PixelAt | python/pixel_module.py:231-232 | forwards to chip i's pixel (c, r), with column c and row r, and that pixel belongs to no other chip |
| PixelModule.Module.GetDac | python/pixel_module.py:235-236 | forwards to chip i's DAC lookup, and a DAC found belongs to no other chip |

## Left out

- Reading the configuration (`config.get`, `int(...)` on its text, `eval` of the DAC maps) is I/O and code evaluation. The parsed counts and maps are constructor arguments instead.
- `int()` on strings, floats and other objects is not modelled. The model tags a value as boolean, integer or non-numeric, and non-numeric always fails. Float truncation is not modelled.
- Values for which `int()` raises TypeError rather than ValueError (`None`, a list) are not modelled. The setters catch only ValueError, so such a value escapes as a TypeError instead of the generic exception; `NonNumeric` stands only for the ValueError case.
- `bool()` truthiness in the mask setter is not modelled: the setter takes a boolean.
- Python's negative-index wraparound in `pixel`, `roc` and list access is not modelled. Indices are required to be within bounds.
- Lookups of a DAC by a value that is neither a string nor an integer are not modelled. The source returns `None` for them, and `DacId` has only the two kinds.
- The optional `trim`/`mask` arguments of the `Pixel` constructor and the optional `value` argument of the `DAC` constructor are not modelled. Only their defaults are: trim 15, no mask, value 0.
- Negative DAC bit widths are not modelled (the width map holds `nat`s). For them `2**bits` is a fraction in Python, and the model has no such bound.
- Negative row, column, chip or TBM counts are not modelled (they are `nat`), because a range over a negative count is empty while the product `rows * cols` would not be.
- The failed `assert` statements are modelled as `OutOfRange` errors. Python run with assertions disabled would store the value unchecked; that mode is not modelled.
- The dictionary iteration order used to fill the DAC tables is left open as a nondeterministic choice.
- `__str__`/`__repr__` formatting and the `__main__` demonstration are output only and are not modelled.
- The TBM has no behaviour beyond recording its channel count and number.
- The `n_rows`, `n_cols`, `n_pixels`, `n_rocs`, `n_tbms`, `col`, `row`, `number` and `name` getters are the classes' fields (`const` where the source never reassigns them).
- The generators are modelled as methods that return the whole sequence, not as lazy iterators.
