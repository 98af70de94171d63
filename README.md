# CodeOpenGLTesting core, modelled in Dafny

This project models the logic at the heart of CodeOpenGLTesting, a small OpenGL
N-body demo written in C++. Its parts are:

- **The physics tick** (`calcPhysics` in `src/physics.h`).
  - A step at or below `MIN_TICK_TIME` (2^-23) changes nothing.
  - Otherwise a gravity pass updates the velocity of every non-static body and records every overlapping pair it sees, using `isColliding`.
  - The recorded pairs are then resolved in order. An entry whose mirror pair came earlier is skipped; every other entry runs `enforcePosition` and adds the two `getImpactVel` impulses.
  - Finally every body moves by `vel * time`.
  - The entt registry is a `Registry` class with one map per component pool. A view is a sequence of entity identifiers.
  - The imperative methods of module `Physics` are proved equal to the pure functions of module `PhysicsSpec`. Module `PhysicsProps` proves what those functions guarantee.
- **The path helpers of the model loader** (`src/modelloader.h`).
  - `getcwd` and both `getname` overloads, built on a `std::string_view` model with explicit `size_t` wrap-around and the `npos` sentinel (module `StringView`).
  - The buffer names that `save` builds.
- **`Shader::appendFile`** (`src/shader.h`): line-by-line reading with recursive expansion of `#include "path"` lines. It runs over a file system given as a map from path to lines.
- **`Particles::updatePos`** (`src/particles.h`): each particle's trail of past positions is updated, being pushed, then padded or popped.
- **The geometry tables and the cube-sphere generator** (`src/shapes.h`).
  - The tables `axis`, `plane`, `cube` and `cubeIndices`.
  - `sphereSide`, which recursively splits a quad into four, and `cubeSphere`, which calls it for the six cube faces.
- **The application layer** (`src/app.cpp`, `src/app.h`).
  - The reward recursion of `App::init` and the early exit of `exec`.
  - The frame counter of `showFPS`.
  - `enumToString`.
  - The `AppSingleton` lookup of the `App` that owns a window.

Floating-point vectors are vectors over the reals. `glm::normalize`, `glm::length` and the NaN test are kept abstract: they are fields of a `Numerics` record passed to every operation. A property that needs a fact about them takes that fact as an explicit hypothesis. `PhysicsProps.ImpulseAgainstHeading` assumes non-negative lengths. `PhysicsProps.HeadOnEqualBodiesStop` assumes that a velocity equals its normalization scaled by its length.

Behaviour of the code worth knowing:

- **Integration.** The final pass of `calcPhysics` moves every body of the view, static ones included (`src/physics.h:155-159`). A static body at rest stays put only because its velocity is never changed (`PhysicsProps.StaticBodyInTick`, `PhysicsProps.RestingStaticBodyStays`).
- **Impulses.** Impulses are added to the velocities, not assigned (`src/physics.h:149-150`). Two equal bodies meeting head on with equal speeds therefore both stop rather than bounce (`PhysicsProps.HeadOnEqualBodiesStop`).
- **Separation.** When neither body is static, `enforcePosition` leaves the bodies `(r1 + r2) * 0.5` apart along `dir`, not `r1 + r2` (`PhysicsProps.EnforcedSeparation`). The "centre" it uses is `pos1 + (r1 / r2) * dist`.
- **The static flag.** `component::phys` in `src/components.h:123-128` declares no static flag, yet `src/physics.h` reads `bStatic`. The model's `Phys` record carries the flag.
- **Two static bodies.** When both bodies of a pair are static, `getImpactVel` still returns `-2 * vel` for the second body. The gravity pass never records such a pair, because a static body records nothing.
- **`enumToString`.** It returns `"UNDEFINED"` both when no key matches and when the matching pair's own name is `"UNDEFINED"`. "UNDEFINED iff no key matches" therefore holds only for tables without that name (`Application.UndefinedIffAbsent`).

## Model

| member | source | states |
|---|---|---|
| `PhysicsSpec.PairsFrom` | src/physics.h:97-112 | every pair the inner loop for body `view[i]` records has `view[i]` first and a visited body second |
| `PhysicsSpec.Kick` | src/physics.h:115-118 | the velocity update touches only body `view[i]`, and only its velocity; every other record and every key stays |
| `PhysicsSpec.GravityStep` | src/physics.h:86-121 | one outer iteration keeps the set of bodies with a physics record |
| `PhysicsSpec.GravityPass` | src/physics.h:83-121 | the gravity pass changes no mass and no static flag; static and unvisited bodies keep their record; every recorded pair starts with a visited body and ends with a body of the view |
| `PhysicsSpec.EnforcedTrans` | src/physics.h:48-66 | `enforcePosition` writes only positions, only of `e1` and `e2`; nothing when both are static; never the position of a static body |
| `PhysicsSpec.ResolvePair` | src/physics.h:143-150 | resolving a pair keeps every key, mass and static flag |
| `PhysicsSpec.Resolve` | src/physics.h:125-151 | the resolution loop keeps every key, mass and static flag |
| `PhysicsSpec.Integrate` | src/physics.h:155-159 | integration keeps the set of transforms |
| `PhysicsSpec.CollisionPairs` | src/physics.h:80-121 | both entities of every recorded pair carry a transform and a physics record, so resolution may read them |
| `PhysicsSpec.Resolved` | src/physics.h:124-151 | the resolution phase of a tick keeps both key sets |
| `Physics.AccumulateBody` | src/physics.h:92-112 | the inner loop accumulates exactly the force `ForceOn` and records exactly the pairs `PairsFrom` |
| `Physics.GravityBody` | src/physics.h:86-121 | one outer iteration, in place, yields the state `GravityStep` describes and writes no transform |
| `Physics.ApplyGravity` | src/physics.h:83-121 | the whole gravity pass, in place, yields the velocities and the pair list of `GravityPass` and writes no transform |
| `Physics.PreviouslyTested` | src/physics.h:128-134 | the scan reports true exactly when the mirror of entry `k` occurs before it |
| `Physics.EnforcePosition` | src/physics.h:48-66 | the in-place `enforcePosition` leaves the transforms `EnforcedTrans` describes and changes no physics record |
| `Physics.ResolvePairInPlace` | src/physics.h:143-150 | one collision resolved in place equals `ResolvePair` of the old state |
| `Physics.ResolveEntry` | src/physics.h:125-151 | one iteration of the resolution loop moves the store from `Resolve` after `k` entries to `Resolve` after `k + 1` |
| `Physics.ResolveCollisions` | src/physics.h:125-151 | the resolution loop, in place, yields `Resolve` over the whole list |
| `Physics.ApplyVelocities` | src/physics.h:155-159 | the integration loop, in place, yields `Integrate` and changes no physics record |
| `Physics.CalcPhysics` | src/physics.h:74-160 | a step at or below `MIN_TICK_TIME` changes nothing; otherwise the store ends in the state `Tick` describes; particles are never touched |
| `PhysicsProps.IsCollidingSymmetric` | src/physics.h:17-20 | the overlap test does not depend on argument order |
| `PhysicsProps.PairsFromMembers` | src/physics.h:97-112 | the inner loop records `(view[i], view[m])` exactly for the visited `m != i` whose body overlaps `view[i]` |
| `PhysicsProps.PairsFromNoDuplicates` | src/physics.h:97-112 | in a view without repeats, the inner loop records no entry twice |
| `PhysicsProps.GravityPassPairs` | src/physics.h:83-121 | the recorded list does not depend on the velocities the pass writes |
| `PhysicsProps.PassPairsMembers` | src/physics.h:86-112 | the list holds exactly the pairs recorded by visited non-static bodies |
| `PhysicsProps.PassPairsNoDuplicates` | src/physics.h:86-112 | in a view without repeats, the list has no repeated entry and every entry starts with a visited body |
| `PhysicsProps.RecordedPairs` | src/physics.h:83-121 | the gravity pass records a pair exactly when its first body is visited and not static, its second is another body of the view, and the two overlap |
| `PhysicsProps.RecordedPairsNoDuplicates` | src/physics.h:83-121 | in a view without repeats, the gravity pass records no entry twice |
| `PhysicsProps.RecordedPairFacts` | src/physics.h:83-121 | every entry of a tick's list names two different bodies of the view that overlapped, the first one not static; no entry repeats |
| `PhysicsProps.MirrorRecorded` | src/physics.h:86-111 | a recorded pair whose second body is not static is also recorded mirrored, which is why the resolution loop deduplicates |
| `PhysicsProps.ResolvedExactlyOnce` | src/physics.h:125-136 | in a list without repeats, each unordered pair of bodies has one entry that is resolved, and any later entry for it is skipped |
| `PhysicsProps.EnforcedSeparation` | src/physics.h:52-64 | with neither body static, the corrected second position is the first plus `dir * (r1 + r2) * 0.5` |
| `PhysicsProps.BounceOffStatic` | src/physics.h:37-40 | a body hitting a static one has its velocity negated; the static body keeps its transform and record |
| `PhysicsProps.ImpulseAgainstHeading` | src/physics.h:32-45 | with neither body static, each impulse points against its own heading, and mass times impulse is the shared momentum `(f1 + f2) / 2` |
| `PhysicsProps.ResolvePairVelocities` | src/physics.h:148-150 | each final velocity is the old velocity plus its impulse |
| `PhysicsProps.HeadOnEqualBodiesStop` | src/physics.h:148-150 | two non-static bodies of equal mass and equal speed both end with zero velocity |
| `PhysicsProps.IntegrateAt` | src/physics.h:155-159 | an entity is moved by `vel * time` once if visited, and is untouched otherwise |
| `PhysicsProps.IntegrateMoves` | src/physics.h:155-159 | every visited body moves by `vel * time` with nothing else of its transform changed; other entities stay |
| `PhysicsProps.ResolvePairKeepsStatic` | src/physics.h:143-150 | resolving an entry whose first body is dynamic changes no static body |
| `PhysicsProps.ResolveKeepsStatic` | src/physics.h:125-151 | the whole resolution loop over such entries changes neither the transform nor the record of a static body |
| `PhysicsProps.StaticBodyInTick` | src/physics.h:74-160 | through a tick a static body keeps its physics record and its position still advances by `vel * deltaTime` |
| `PhysicsProps.RestingStaticBodyStays` | src/physics.h:155-159 | a static body at rest keeps its transform and record through a tick |
| `StringView.SizeT` | src/modelloader.h:48 | `size_t` arithmetic: the result lies in `[0, 2^64)` and equals the input shifted by a multiple of `2^64` |
| `StringView.FindLastOf` | src/modelloader.h:35-38 | `npos` exactly when the character is absent; otherwise the index of its last occurrence |
| `StringView.FindFirstOf` | src/shader.h:129 | `npos` exactly when the character is absent; otherwise the index of its first occurrence |
| `StringView.Substr` | src/modelloader.h:48 | out of range exactly when `pos > size`; otherwise the `min(count, size - pos)` characters from `pos` |
| `ModelLoader.Getcwd` | src/modelloader.h:34-43 | a prefix of the path ending at its last `/`, else at its last `\`, else empty; no `/` follows it |
| `ModelLoader.Getname` | src/modelloader.h:46-49 | fails exactly when `cwd` is longer than the file; otherwise the text from `|cwd|` up to the last `.`, or to the end when no `.` follows `|cwd|` |
| `ModelLoader.GetnameOf` | src/modelloader.h:45 | the one-argument overload is the two-argument one with the file's own directory; it never fails and contains no `/` |
| `ModelLoader.BufferName` | src/modelloader.h:331 | the buffer name has no `/` and ends in `.bin` |
| `ModelLoader.BufferFileReplacesExtension` | src/modelloader.h:303-332 | the buffer path is the model path with its extension replaced by `.bin`, or with `.bin` appended when the file name has no `.` |
| `Shader.IncludePathArithmetic` | src/shader.h:128-130 | the `size_t` offset and length arithmetic yields the text between the first and the last `"`, after a lone `"`, or the whole line when there is none |
| `Shader.NoQuoteArithmetic` | src/shader.h:129-130 | with no `"` the offset wraps to 0 and the path is the whole line |
| `Shader.OneQuoteArithmetic` | src/shader.h:129-130 | with one `"` the length wraps and the path runs to the end of the line |
| `Shader.TwoQuotesArithmetic` | src/shader.h:129-130 | with two or more `"` the path lies between the first and the last |
| `Shader.NoQuoteAt` | src/shader.h:129-130 | for quote positions both `npos`, the wrapped offset 0 and count `npos - 0` select the whole line |
| `Shader.OneQuoteAt` | src/shader.h:129-130 | for a single quote at `q`, the offset is `q + 1` and the wrapped count `npos` selects the rest of the line |
| `Shader.TwoQuotesAt` | src/shader.h:129-130 | for quotes at `first < last`, no wrap occurs and the count selects exactly the text between them |
| `Shader.AppendFile` | src/shader.h:111-140 | the result flag is whether the file and all its includes could be read; the string gains the expansion's lines, each followed by a newline |
| `Shader.AppendLines` | src/shader.h:122-139 | the read loop appends the expansion of the lines in order and reports whether all succeeded |
| `Shader.AppendNext` | src/shader.h:123-137 | one pass of the read loop extends the expansion of the first `k` lines to `k + 1` |
| `Shader.AppendLine` | src/shader.h:126-136 | an include line with a non-empty path appends that file's expansion; an empty path fails; any other line is appended with a newline |
| `Shader.JoinAppend` | src/shader.h:136 | appending line by line distributes over concatenation of the line lists |
| `Shader.FailureIsFinal` | src/shader.h:131-134 | once a line fails, no later line is appended |
| `Shader.FailedLineStops` | src/shader.h:131-134 | a failing line makes the whole file fail, keeping what was appended before and during that line |
| `Shader.ExpandCopiesLines` | src/shader.h:126-136 | every appended line is a non-include line of some file |
| `Shader.ExpandLinesCopiesLines` | src/shader.h:123-137 | every line the read loop appends is a non-include line of some file |
| `Shader.PlainFileExpandsToItself` | src/shader.h:111-140 | a readable file without include lines expands to its own lines, successfully |
| `Shader.PlainLinesExpandToThemselves` | src/shader.h:123-137 | lines without includes are copied unchanged, in order |
| `Shader.ExpandMoreFuel` | src/shader.h:111-140 | an expansion that succeeds with a given nesting bound gives the same lines with a larger one |
| `Shader.ExpandLinesMoreFuel` | src/shader.h:122-139 | the same for the read loop over the first `n` lines |
| `Shader.LineExpansionMoreFuel` | src/shader.h:126-136 | the same for one line, include or not |
| `Particles.Repeat` | src/particles.h:44-45 | the padding is `n` copies of the position |
| `Particles.UpdatedParticle` | src/particles.h:41-50 | the particle takes the entity's scale; its newest trail entry is the entity's position; the trail is empty only if it was empty and `trailSize` is 0; a trail of at most `trailSize` entries ends with exactly `trailSize` |
| `Particles.UpdateAll` | src/particles.h:38-51 | the pass keeps the set of particles |
| `Particles.TrailKeepsLength` | src/particles.h:41-48 | a trail of at most `trailSize` entries holds exactly `trailSize` after an update |
| `Particles.NewestIsPosition` | src/particles.h:41-48 | the newest entry is the entity's position; the trail is empty only if it was empty and `trailSize` is 0 |
| `Particles.FullTrailDropsOldest` | src/particles.h:43-48 | a full trail loses its oldest entry and gains the position |
| `Particles.ShortTrailIsPadded` | src/particles.h:43-45 | a short trail keeps its entries and is padded with the position up to `trailSize` |
| `Particles.OverlongTrailWraps` | src/particles.h:44 | an over-long trail is not shortened: the `size_t` pad count wraps and the trail grows to `trailSize + 2^64` |
| `Particles.Untouched` | src/particles.h:38-51 | an entity the remaining view does not visit keeps its particle |
| `Particles.UpdatedOnce` | src/particles.h:38-51 | in a view without repeats, the entity at position `k` is updated exactly once, from its original particle |
| `Particles.UpdateAllAt` | src/particles.h:38-51 | after the pass, each view entity's particle is updated once and every other particle is unchanged |
| `Particles.TrailsFilled` | src/particles.h:38-51 | every entity of the view whose trail is no longer than `trailSize` holds exactly `trailSize` points after the pass; nothing is required of entities outside the view |
| `Particles.Pad` | src/particles.h:44-45 | the count-down loop appends exactly `size_t(trailSize - size)` copies of the position |
| `Particles.UpdateOne` | src/particles.h:39-50 | one entity's particle is replaced by its updated particle; no other particle and no transform changes |
| `Particles.UpdatePos` | src/particles.h:37-52 | in place, the pool ends as `UpdateAll` over the view; no transform or physics record changes |
| `Shapes.AxisSegments` | src/shapes.h:21-28 | `axis` is three segments from the origin along the unit axes, each vertex carrying its axis as normal |
| `Shapes.PlaneFacesUp` | src/shapes.h:30-38 | `plane` lies in y = 0 with normal +y, corners at ±0.5, two triangles sharing a diagonal |
| `Shapes.CubeOnFaces` | src/shapes.h:40-70 | all 24 `cube` vertices lie on the face of the half-unit cube whose outward normal they carry |
| `Shapes.CubeFaceNormals` | src/shapes.h:40-70 | each group of four `cube` vertices shares one normal |
| `Shapes.CubeIndicesDrawFaces` | src/shapes.h:72-85 | `cubeIndices` has 36 entries, all below 24, two triangles `0,1,3` and `1,2,3` per face of four vertices |
| `Shapes.CubeIndexEntry` | src/shapes.h:72-85 | entry `i` is `4 * (i / 6)` plus the corner of the face's quad pattern |
| `Shapes.NewPoints` | src/shapes.h:91-95 | sub-quad `i` keeps corner `points[i]` at index `i`; each other corner is the midpoint towards the matching corner |
| `Shapes.Project` | src/shapes.h:99-100 | the normalizing loop replaces each of the four corners by its normalization (`Projected`) |
| `Shapes.SideCount` | src/shapes.h:88-112 | a side emits `6 * 4^subdivisions` vertices |
| `Shapes.SubQuadCount` | src/shapes.h:89-97 | the first `n` sub-quads emit `n * 6 * 4^(subdivisions - 1)` vertices together |
| `Shapes.SideSpherical` | src/shapes.h:88-112 | every emitted vertex is a normalized point, with normal equal to position and zero uv |
| `Shapes.SubQuadSpherical` | src/shapes.h:89-97 | the sub-quads' vertices are spherical too |
| `Shapes.SphericalAppend` | src/shapes.h:102-110 | appending spherical vertex lists keeps them spherical |
| `Shapes.SubdividedLayout` | src/shapes.h:89-97 | block `i` of a subdivided side is exactly sub-quad `i`'s output |
| `Shapes.PrefixOfSubQuads` | src/shapes.h:89-97 | the output of fewer sub-quads is a prefix of the output of more |
| `Shapes.VertexList.constructor` | src/shapes.h:149 | the vertex list starts empty |
| `Shapes.SphereSide` | src/shapes.h:88-112 | `sphereSide` appends exactly `SideVertices` to the list, leaving earlier vertices in place |
| `Shapes.SideCornersOnCube` | src/shapes.h:117-147 | every starting corner is a corner of the cube `[-1, 1]^3` |
| `Shapes.CubeSphereCount` | src/shapes.h:149-158 | the first `n` sides emit `n * 6 * 4^subdivisions` vertices |
| `Shapes.CubeSphereSpherical` | src/shapes.h:149-158 | every vertex of the first `n` sides lies on the sphere |
| `Shapes.SideCopy` | src/shapes.h:151-153 | the copy loop takes the four corners of side `side` |
| `Shapes.CubeSphere` | src/shapes.h:116-159 | `cubeSphere` returns the six sides in order: `36 * 4^subdivisions` vertices, all spherical |
| `Application.InitBoundaries` | src/app.cpp:55-62 | a reward above 1 returns 3, and one at or below -1 returns 0, with no stage called and no further invocation |
| `Application.InitFromZero` | src/app.cpp:53-63 | `init(0)` returns 3 exactly when both stages succeed and 0 otherwise; GLFW runs first; OpenGL runs only after GLFW succeeds; at most three invocations |
| `Application.ExecFailsIffInitFails` | src/app.cpp:65-68 | `exec` returns -1 exactly when a stage fails, and 0 otherwise |
| `Application.FpsCounter.constructor` | src/app.cpp:182-183 | the statics start with no frames counted and the timer at the current time |
| `Application.FpsCounter.ShowFps` | src/app.cpp:180-194 | after 1000 ms or more the rate is shown and the counter restarts, ending at 1; otherwise it is incremented modulo 2^32 and the timer is kept |
| `Application.LookupFirstMatch` | src/app.h:80-87 | the name of the lowest-index pair whose key is `arg`; `"UNDEFINED"` when no key is `arg` |
| `Application.UndefinedIffAbsent` | src/app.h:82-86 | with no pair named `"UNDEFINED"`, the result is `"UNDEFINED"` exactly when no key matches |
| `Application.EnumToString` | src/app.h:80-87 | the loop with early return yields `Lookup` |
| `Application.EnumToStringPacked` | src/app.h:91-96 | the variadic overload agrees with the array overload |
| `Application.AppSingleton.constructor` | src/app.h:110-111 | the registry starts with no instances |
| `Application.AppSingleton.Find` | src/app.h:119-125 | the first instance in order that is non-null with a non-null window equal to `wp`; null exactly when none matches, and always for a null `wp` |
| `Application.AppSingleton.GetInstances` | src/app.h:127 | a copy equal to the registered instances; nothing changes |

## Left out

- Floating point is not modelled. Vectors are over the reals, `float` and `double` are not distinguished, and the narrowing at `src/physics.h:158` is not modelled. Division by zero yields 0 instead of an IEEE infinity or NaN.
- `glm::normalize`, `glm::length` and the NaN test of the gravity pass (`src/physics.h:116`) are abstract parameters. Force magnitudes and geometric distances are therefore not proved. The two lemmas that need facts about them, `PhysicsProps.ImpulseAgainstHeading` and `PhysicsProps.HeadOnEqualBodiesStop`, state those facts as hypotheses.
- The gravity law `calcGravity` is written out, but nothing is proved about its value. `dist.length()` at `src/physics.h:107` is GLM's component count, which the model takes as the constant 3.
- The entt registry is a class holding one map per component pool, and a view is a sequence of entity identifiers. entt's storage, sorting and `get` checks are not modelled.
- `ModelLoader::load`, `save`, `initObj`, `readFile`, `readFileB` and `deInitModels` are not modelled. They are file I/O, JSON, GL buffers and byte reinterpretation. Only the names `save` builds are modelled.
- `ModelLoader::mesh` with an empty cache runs off its end (undefined behaviour), and is not modelled.
- `ModelLoader.BufferFile` has no contract of its own. Its property is `ModelLoader.BufferFileReplacesExtension`.
- The `string_view` operations require fewer than 2^64 - 1 characters (`StringView.IsView`), which every real `string_view` satisfies. Beyond that, no limit on string length is modelled.
- `Shader.AppendFile`: the original has no guard against a file that includes itself. Each nesting level keeps its file open while it recurses (src/shader.h:113), so a self-include nests until opening a file fails and `appendFile` returns false (src/shader.h:114-116), or until the stack runs out first. The model bounds the nesting by `fuel`; running out of it is the same failure as an open that fails, and `Shader.ExpandMoreFuel` shows that the bound changes no expansion that succeeds. A real file system is a map from path to lines. Reserving string capacity is not modelled.
- The two-argument `Shader` constructor (`src/shader.h:17`) is not modelled. It reads the vertex and fragment sources through `appendFile`, then compiles and links them with GL. The three-argument constructor called at `src/particles.h:18` is not defined in the modelled sources.
- Particle rendering (`updateShaderData`, `render`, the `Particles` constructor) and everything in `src/bloom.h` are GL plumbing, and are not modelled.
- The particle component is not declared in `src/components.h`. The model gives it the two fields `updatePos` uses, a queue of positions and a scale. `trailSize` is a `size_t` template parameter; over-long trails wrap as shown by `Particles.OverlongTrailWraps`, though no real queue could hold them.
- The `cube` table's vertex positions and normals are modelled, and its uv coordinates are left at zero as the source leaves them.
- `initGLFW` and `initOpenGL` (`src/app.cpp:3-51`) are GLFW and GL calls. Each is represented only by whether it succeeds, and so returns 1 or -1 as the original does. Each stage is called at most once per `init(0)`, so a fixed outcome per stage loses nothing.
- The body of `exec` after its early exit (GL state, the render loop, input handling), `processInput`, `framebuffer_size_callback` and `scroll_callback` are window-system code, and are not modelled.
- `Application.FpsCounter.ShowFps` reads the clock once, as the `now` parameter. The original calls `steady_clock::now()` twice, for `elapsed` and for `reset`, so its new timer start is slightly later. The rate is computed over the reals rather than in `float`, and setting the window title is not modelled.
- `AppSingleton::get` (the static instance) is not modelled. The `App` constructor, which `AppSingleton` befriends (`src/app.h:108`), is not defined in the modelled sources, so how instances enter the registry is not modelled. The model's `App` carries only the window handle that `find` reads.
- `src/timer.h` and `src/main.cpp` are modelled only through the clock reading above.
