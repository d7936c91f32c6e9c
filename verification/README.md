# Restorable values: snapshot and revert

A model of the `Restorable<T>` wrapper from the C++ post "hide and seek with
references in C++ templates" (`tmpl_ref.cpp`). The program exists in two
byte-identical copies, `content/posts/hide-n-seek-with-refs-in-cpp-templates/tmpl_ref.cpp` and `public/posts/hide-n-seek-with-refs-in-cpp-templates/tmpl_ref.cpp`. One model serves both, and the line
numbers cited below are the same in either copy.

`Restorable<T>` owns two copies of a value: a working copy (`_actual`) that
callers may change, and a snapshot (`_original`) taken at construction.
It reports whether the two differ, copies the snapshot back on `restore()`,
and forwards `save()` and `toString()` to the working copy. `Entity` is
the interface through which a wrapper is handed out when its `T` must not
appear in the caller's type. `makeRestorable` saves a sample once and wraps
a copy of it; `makeEntity` does the same and boxes the result as an
`Entity`. The demo type `S` has an id and a name and renders as
`S[ #<id> <name> ]`.

Modules:

- `Restorables` (restorable.dfy): `SaveLog`, `Restorable`, `Entity`,
  `MakeRestorable`, `MakeEntity`.
  - `_original` is a `const` field, so Dafny itself rules out any write to it after the constructor.
  - `_actual` and `_original` hold values, not references. The copy semantics that `std::decay_t` secures in C++ therefore holds by construction.
  - The wrapped type's `save()` is one event appended to a ghost `SaveLog<T>`: the value that was saved.
  - The wrapped type's `toString()` is a `render: T -> string` argument.
  - The mutable `value()` reference is the method `Mutate(edit)`, which applies an in-place edit to the working copy.
  - The read-only `value()` is the public field `actual`.
- `Sample` (sample.dfy): the struct `S` and `S::toString`.
  - `Parse` reads a rendering back. It is a specification partner with no counterpart in the program.
  - It shows the format loses nothing: two different `S` values never render alike.
- `Decimal` (decimal.dfy): `std::to_string` for the id. `ParseInt` is its inverse, proved in both directions.
- `Driver` (driver.dfy): `loadEntity` and the walk-through of `main`, with every printed rendering stated as a postcondition.
- `Wrappers` (wrappers.dfy): `Option`.

## Model

| member | source | states |
|---|---|---|
| Restorables.Restorable.constructor | content/posts/hide-n-seek-with-refs-in-cpp-templates/tmpl_ref.cpp:18-21 | both copies equal the argument, so the new wrapper reports no change |
| Restorables.Restorable.Restore | content/posts/hide-n-seek-with-refs-in-cpp-templates/tmpl_ref.cpp:27-29 | afterwards the working copy equals the snapshot and no change is reported; the snapshot is untouched; on an unchanged wrapper it changes nothing, so a second call is a no-op (idempotence) |
| Restorables.Restorable.Mutate | content/posts/hide-n-seek-with-refs-in-cpp-templates/tmpl_ref.cpp:35-37 | a change made through the mutable `value()` reference rewrites only the working copy; a change is reported exactly when the edited value differs from the snapshot |
| Restorables.Restorable.Save | content/posts/hide-n-seek-with-refs-in-cpp-templates/tmpl_ref.cpp:39-41 | one save event is recorded, for the working copy and not the snapshot; the wrapper itself is not modified (`save() const`) |
| Restorables.RenderingShowsChange | content/posts/hide-n-seek-with-refs-in-cpp-templates/tmpl_ref.cpp:23-25 | `isChanged()` is false exactly when `toString()` renders the snapshot, for any rendering that tells values apart (`toString()` reads the working copy only) |
| Restorables.SaveLog.Record | content/posts/hide-n-seek-with-refs-in-cpp-templates/tmpl_ref.cpp:55 | `sample.save()` appends exactly one event for that value |
| Restorables.MakeRestorable | content/posts/hide-n-seek-with-refs-in-cpp-templates/tmpl_ref.cpp:53-57 | exactly one save of the sample is recorded; then a new wrapper is built whose working copy and snapshot both equal the sample, so the snapshot is the value just persisted |
| Restorables.Entity.constructor | public/posts/hide-n-seek-with-refs-in-cpp-templates/tmpl_ref.cpp:8-12 | the `Entity` view forwards to the given wrapper |
| Restorables.Entity.Save | public/posts/hide-n-seek-with-refs-in-cpp-templates/tmpl_ref.cpp:10 | saving through `Entity` records the wrapped working copy, as the wrapper's own `save()` does |
| Restorables.MakeEntity | public/posts/hide-n-seek-with-refs-in-cpp-templates/tmpl_ref.cpp:60-63 | exactly one save of the sample; the returned `Entity` owns a new wrapper of the sample, and for every rendering it renders exactly what `makeRestorable(sample).toString()` would |
| Decimal.NatToText | public/posts/hide-n-seek-with-refs-in-cpp-templates/tmpl_ref.cpp:78 | the digits of a natural number: non-empty, digits only, no leading zero, first digit '0' exactly for 0 |
| Decimal.NatTextRoundTrip | public/posts/hide-n-seek-with-refs-in-cpp-templates/tmpl_ref.cpp:78 | reading the digits back gives the number |
| Decimal.TextNatRoundTrip | public/posts/hide-n-seek-with-refs-in-cpp-templates/tmpl_ref.cpp:78 | every canonical digit string is the rendering of its value, so rendering is a bijection onto canonical digit strings |
| Decimal.IntToText | public/posts/hide-n-seek-with-refs-in-cpp-templates/tmpl_ref.cpp:78 | `std::to_string(id)`: non-empty, digits with an optional leading '-', which appears exactly for negative ids |
| Decimal.IntTextRoundTrip | public/posts/hide-n-seek-with-refs-in-cpp-templates/tmpl_ref.cpp:78 | `ParseInt` recovers every rendered id |
| Decimal.TextIntRoundTrip | public/posts/hide-n-seek-with-refs-in-cpp-templates/tmpl_ref.cpp:78 | whatever `ParseInt` accepts is the rendering of the id it returns |
| Sample.ParseToString | public/posts/hide-n-seek-with-refs-in-cpp-templates/tmpl_ref.cpp:76-80 | parsing `S::toString`'s output gives back the same id and name, for every id and every name (spaces included) |
| Sample.ToStringOfParse | public/posts/hide-n-seek-with-refs-in-cpp-templates/tmpl_ref.cpp:76-80 | every text that parses is exactly the rendering of the parsed value |
| Sample.ToStringInjective | public/posts/hide-n-seek-with-refs-in-cpp-templates/tmpl_ref.cpp:76-80 | two values with the same rendering are equal, so a change to a working copy of type `S` always shows in `toString()` |
| Driver.DemoRenderings | public/posts/hide-n-seek-with-refs-in-cpp-templates/tmpl_ref.cpp:94-125 | the demo values render as `S[ #1 alpha ]`, `S[ #2 beta ]`, `S[ #3 gamma ]`, `S[ #4 delta ]` and, after the update, `S[ #4 delta (upd.) ]` |
| Driver.LoadEntity | public/posts/hide-n-seek-with-refs-in-cpp-templates/tmpl_ref.cpp:84-87 | a new `Entity` for `{3, "gamma"}`, saved once, rendering `S[ #3 gamma ]` |
| Driver.Run | public/posts/hide-n-seek-with-refs-in-cpp-templates/tmpl_ref.cpp:91-125 | `r1` renders `{1, "alpha"}` before and after `s` is reassigned to `{2, "beta"}`; `r2` renders `{2, "beta"}`; `r3` renders `{3, "gamma"}`; `r4` renders the updated name after the change through `value()`; the saves happen once per wrapper, in program order |

## Left out

- Console output: `S::save` prints a line (lines 71-74), and `main` prints every rendering. A save is modelled only as an event in the ghost `SaveLog`. `Driver.Run` returns the renderings instead of printing them.
- The default initialisation of `S s;` in `main` gives `{0, ""}`, which is immediately overwritten. The model keeps the assignment but states nothing about it.
- Type erasure: Dafny traits are not used. `Entity<T>` is a class generic in `T` that exposes only `Save` and `ToString`. A container holding entities of different `T` is therefore not modelled.
- Ownership: `std::unique_ptr`/`std::make_unique` and the missing virtual destructor of `Entity` (lines 8-12) are memory management. The model states only that the wrapped object is freshly allocated.
- `std::decay_t` and forwarding-reference deduction (lines 54 and 62), and the commented-out `is_same_v` checks, are type-level C++. Dafny's value semantics stand in for them.
- Read-only `value() const` (lines 31-33): callers read the public field `actual`. No separate function is declared for it.
- `isChanged()` for `S`: `S` defines no `operator!=`, so the program never instantiates `isChanged()` for it. The driver does not call it either. Dafny's structural equality on the datatype `S` is what the wrapper compares, and it is used only in the generic statements.
- Failures of `save()`: the wrapped type's `save()` cannot fail in the model, so failure propagation is not represented.
- `S.id`: it is a 32-bit `int` in the program and an unbounded `int` here. The id is only rendered, never computed with, so no wrap-around can arise.
- The `std::stringstream` mechanics of `S::toString` are modelled as plain string concatenation.
