# FastFuse core, modelled in Dafny

FastFuse fuses and registers light-sheet microscopy stacks on an OpenCL
device. This project models the integer planning, bookkeeping and cache
management around that GPU work, and proves what that code promises:

- **Stack registration planning** (`Registration`):
  - the balanced 3-D work-group shape chosen for a power-of-two group size
    (`work_group.dfy`);
  - the ladder of tree-reduction buffer sizes (`ladder.dfy`);
  - the scratch buffers, three per ladder level, closed and re-created on
    every re-plan;
  - the mapping of a buffer length to its ladder level and the schedule of
    reduction passes;
  - the length-keyed host transfer-buffer cache;
  - the affine transform handed to the kernels (`registration.dfy`);
  - the incumbent tracking of `register` and `randomSearch`
    (`search.dfy`).
- **The device image pool** (`FastFusionMemoryPool`):
  - free-list stacks keyed by (data type, dimensions), an in-use set, a
    least-recently-released key order and the byte counter;
  - threshold-driven eviction, requests, releases and freeing.

  `pool_spec.dfy` states the pool as a value with an invariant and proves
  what every operation does to it. `memory_pool.dfy` is the class with the
  source's fields and loops; each method is proved to move the state
  exactly as the specification function says.
- **The affine matrix helpers** (`AffineMatrix`), over `real` 4x4 matrices
  (`affine_matrix.dfy`).
- **Pipeline-plan builders and task metadata**:
  - `CompositeTasks`: the task lists and their combined key arrays
    (`composite_tasks.dfy`);
  - `TenengradAdvancedFusionTask`: the key split and the kernel arguments
    (`tenengrad_fusion.dfy`);
  - `DownsampleXYbyHalfTask` (`downsample.dfy`);
  - `TaskHelper`: the data-type rules and the OpenCL define table
    (`task_helper.dfy`);
  - `FusionTaskBase`: the required-key check and the kernel cache
    (`fusion_task_base.dfy`).

  Tasks are datatype constructors carrying their keys. The random UUID
  suffix is a parameter.

Shared definitions:

- `images.dfy`: the channel data types, pool keys, images and their byte
  sizes.
- `wrappers.dfy`: `Option`, which stands for Java's `null`.

Things outside the program become parameters:

- the OpenCL kernels, the device contents `device(b, i)`, the cost
  function `J`, the BOBYQA optimizer, the random perturbations and the
  axis rotation matrices;
- the engine's image lookup in the tasks' `enqueue`.

Two facts about the code are worth stating outright:

- The transform is built as `centreScale⁻¹ · zero · translate · rotate ·
  centreScale` (`Registration.java:363-368`): the zero transform comes
  second, after the inverse centring.
- The reduction ladder always holds the first division `S0 / g`
  (`Registration.java:109`), even for a volume already below the
  threshold.

## Model

| member | source | states |
|---|---|---|
| WorkGroup.IdealExps | src/fastfuse/registration/Registration.java:161-167 | the ideal exponents ceil(e/3), ceil((e-e0)/2) and the rest sum to e, are non-increasing, and the first exceeds the last by at most one |
| WorkGroup.Cost | src/fastfuse/registration/Registration.java:196-198 | the squared distance of a candidate from the ideal exponents is zero exactly for the ideal exponents themselves |
| WorkGroup.Candidates | src/fastfuse/registration/Registration.java:179-186 | the candidate exponents of an axis are exactly the e' <= e with 2^e' dividing the extent, in strictly descending order |
| WorkGroup.Visit | src/fastfuse/registration/Registration.java:193-203 | one innermost step of the nested search keeps the search state: the chosen triple is the first of least cost among the triples visited so far |
| WorkGroup.Search | src/fastfuse/registration/Registration.java:188-204 | the nested loops find a triple iff one sums to e; the chosen one has least cost, and every earlier triple in loop order costs strictly more |
| WorkGroup.SplitExists | src/fastfuse/registration/Registration.java:158-159 | when 2^e divides the volume a usable split exists, so the chosen exponents are never null |
| WorkGroup.SearchSplit | src/fastfuse/registration/Registration.java:178-209 | the fallback path returns the best split: usable, of least cost, and first in descending loop order on ties |
| WorkGroup.ComputeLocalSize | src/fastfuse/registration/Registration.java:149-212 | three powers of two multiplying to the group size, each dividing its extent; the ideal shape whenever it tiles the extent; otherwise the best split |
| WorkGroup.IdealIsBest | src/fastfuse/registration/Registration.java:173-176 | when the ideal shape tiles the extent it is itself the best split, so skipping the search loses nothing |
| WorkGroup.BestFromSearch | src/fastfuse/registration/Registration.java:188-209 | the search result, read back as exponents, is the best split of the extent |
| WorkGroup.BestSplitUnique | src/fastfuse/registration/Registration.java:198-203 | with the strict `<` the best split is determined: two best splits are equal |
| ReductionLadder.BuildLadder | src/fastfuse/registration/Registration.java:106-112 | the ladder starts at the voxel count, always holds the first division, each entry is its predecessor over g, every entry divided again passed the loop test, and the last fails it |
| ReductionLadder.LadderUnique | src/fastfuse/registration/Registration.java:106-112 | the ladder is a function of total, group size and threshold: two ladders of the same inputs are equal |
| ReductionLadder.LadderPositive | src/fastfuse/registration/Registration.java:106-112 | every entry but the last is positive when the volume is |
| ReductionLadder.LadderDecreasing | src/fastfuse/registration/Registration.java:106-112 | the ladder is strictly decreasing when the volume is positive |
| Registration.MakePlan | src/fastfuse/registration/Registration.java:102-112 | the local size computeLocalSize promises and the ladder of the extents, together |
| Registration.Registration.constructor | src/fastfuse/registration/Registration.java:74-84 | plans for the first image's extents and sets both images: the registration is prepared, with an empty host cache |
| Registration.Registration.SetImages | src/fastfuse/registration/Registration.java:86-96 | with unchanged extents the plan, buffers and host cache are kept; otherwise new buffers are created and the host cache is emptied |
| Registration.Registration.SetSizeAndPrepare | src/fastfuse/registration/Registration.java:98-147 | afterwards the plan is for the given extents, the open buffers are exactly the new scratch buffers, the matrices invert each other and the host cache is empty |
| Registration.Registration.Replan | src/fastfuse/registration/Registration.java:102-112 | the new extents, their local size and their ladder |
| Registration.Registration.ReplaceBuffers | src/fastfuse/registration/Registration.java:114-129 | old buffers are closed before new ones are made, so the open buffers are exactly the new levels |
| Registration.Registration.CloseBuffers | src/fastfuse/registration/Registration.java:115-120 | every buffer of the old array is closed and the context holds no open buffer |
| Registration.Registration.AllocateBuffers | src/fastfuse/registration/Registration.java:123-129 | size-1 levels of three fresh buffers, level i of length sizes[i+1], and exactly these are open |
| Registration.Registration.SetMatrices | src/fastfuse/registration/Registration.java:135-146 | the centring and z-scaling matrix of the extents and its inverse are stored |
| Registration.CenterScale | src/fastfuse/registration/Registration.java:135-143 | the 4x4 matrix scaling(1, 1, sz) · translation(−centre); CenterScaleInverts proves its inverse |
| Registration.CenterScaleInverse | src/fastfuse/registration/Registration.java:145-146 | the 4x4 closed-form inverse translation(centre) · scaling(1, 1, 1/sz) stored for Matrix4f.invert |
| Registration.CenterScaleInverts | src/fastfuse/registration/Registration.java:135-146 | the stored inverse is a two-sided inverse of the centring and scaling matrix |
| Registration.TranslationInverse | src/fastfuse/registration/AffineMatrix.java:14-20 | translation by -c inverts translation by c, on both sides |
| Registration.ScalingInverse | src/fastfuse/registration/AffineMatrix.java:22-30 | scaling z by 1/sz inverts scaling z by sz, on both sides |
| Registration.TransformOrder | src/fastfuse/registration/Registration.java:363-368 | the transform is the left-to-right product centreScale⁻¹ · zero · translate · rotate · centreScale |
| Registration.TransformMatrix | src/fastfuse/registration/Registration.java:354-368 | the product of the five matrices of getTransformMatrixBuffer is a 4x4 matrix (its factor order is TransformOrder) |
| Registration.TransformOfZero | src/fastfuse/registration/Registration.java:354-368 | with the identity as zero transform, zero translation and an identity rotation the transform is the identity |
| Registration.Registration.Transform | src/fastfuse/registration/Registration.java:354-368 | the matrix handed to the kernel is the transform built from the stored centring matrices of the current extents |
| Registration.FirstIndex | src/fastfuse/registration/Registration.java:382-384 | the first ladder index of the given length: it has that length and no earlier one does |
| Registration.Registration.CheckBuffersAndGetReductionIndex | src/fastfuse/registration/Registration.java:376-387 | the first ladder index of the buffers' length, and -1 exactly when no level has that length |
| Registration.Registration.Row | src/fastfuse/registration/Registration.java:407-408 | the first m scratch buffers of a level, read from the array, are that level's buffers of the layout |
| Registration.Schedule | src/fastfuse/registration/Registration.java:405-411 | one pass per level from s up to the last reduction |
| Registration.ScheduleAt | src/fastfuse/registration/Registration.java:405-411 | pass k of the schedule is the pass of level s+k |
| Registration.PassShape | src/fastfuse/registration/Registration.java:400-444 | a pass runs the kernel for the buffer count with local size g and the level's global size, reads buffers of that level's length and writes the next level's buffers |
| Registration.ScheduleChain | src/fastfuse/registration/Registration.java:405-412 | the first pass reads the inputs, each later pass reads what the previous one wrote, and the last one writes the buffers the host reads |
| Registration.Registration.SchedulePasses | src/fastfuse/registration/Registration.java:400-444 | the pass loop emits exactly the schedule from level s |
| Registration.ReduceKernel | src/fastfuse/registration/Registration.java:403-431 | the kernel for one, two or three buffers is `reduce_mean_` followed by the buffer count and `buffer` |
| Registration.Registration.ReduceOnDevice | src/fastfuse/registration/Registration.java:395-447 | no pass and the inputs themselves when s is the last level; otherwise the schedule and the last level's buffers |
| Registration.Registration.ReduceMean | src/fastfuse/registration/Registration.java:389-453 | the passes from the inputs' level, then one host mean for every buffer the last pass wrote, reading through the cache |
| Registration.HostMeans | src/fastfuse/registration/Registration.java:458-463 | one host mean per buffer, in order |
| Registration.HostMean | src/fastfuse/registration/Registration.java:466-484 | NaN exactly for an empty buffer; otherwise the mean times the length is the sum of the buffer's floats |
| Registration.SumConstant | src/fastfuse/registration/Registration.java:479-481 | summing k equal values gives k times the value |
| Registration.HostMeanConstant | src/fastfuse/registration/Registration.java:479-483 | the mean of a non-empty buffer of equal values is that value |
| Registration.CacheAfterProperties | src/fastfuse/registration/Registration.java:467-474 | reading through the cache keeps every cached buffer, caches every length read, adds no other length, and each entry fits its length |
| Registration.CacheAfter | src/fastfuse/registration/Registration.java:467-474 | every length already cached keeps its host buffer |
| Registration.Registration.ReduceOneOnHost | src/fastfuse/registration/Registration.java:466-484 | the buffer's mean; the cache gains an entry for its length only when none was there |
| Registration.Registration.ReduceMeanOnHost | src/fastfuse/registration/Registration.java:455-485 | for at least one buffer, one mean per buffer, with the cache after reading the buffers in order |
| Registration.Context.CreateBuffer | src/fastfuse/registration/Registration.java:127-129 | a fresh buffer of the requested length that is now open |
| Registration.Context.Close | src/fastfuse/registration/Registration.java:119 | the buffer is no longer open and nothing else changes |
| RegistrationSearch.RandomSearch | src/fastfuse/registration/Registration.java:318-338 | the incumbent after scanning the samples in order, from the initial parameters at cost +infinity |
| RegistrationSearch.ScanFirstMinimum | src/fastfuse/registration/Registration.java:318-338 | no samples leave the initial parameters; otherwise the result is the first sample of least cost, and its cost is recorded with it |
| RegistrationSearch.Register | src/fastfuse/registration/Registration.java:252-315 | the best of the initial parameters and 1 + restarts optimizer runs, run 0 from the initial parameters and every later one from a random search |
| RegistrationSearch.BestAfterProperties | src/fastfuse/registration/Registration.java:252-304 | the result is never worse than the start or any run, is the start or a run's result, and when better than the start it is the first run of that cost |
| AffineMatrix.Translation | src/fastfuse/registration/AffineMatrix.java:14-20 | three components; the identity with the vector in the last column |
| AffineMatrix.Scaling | src/fastfuse/registration/AffineMatrix.java:22-30 | three components; diagonal (s0, s1, s2, 1), zero elsewhere |
| AffineMatrix.MultiplyEmpty | src/fastfuse/registration/AffineMatrix.java:42-49 | multiply of no matrices is the identity |
| AffineMatrix.Multiply | src/fastfuse/registration/AffineMatrix.java:42-49 | the left fold of `mul` from the identity over 4x4 matrices is a 4x4 matrix |
| AffineMatrix.Rotation | src/fastfuse/registration/AffineMatrix.java:32-40 | the product Rz · Ry · Rx of the axis rotations is a 4x4 matrix |
| AffineMatrix.Mul | src/fastfuse/registration/AffineMatrix.java:46 | the product of two 4x4 matrices is 4x4, and entry (i, j) is row i of the left times column j of the right |
| AffineMatrix.MultiplyOne | src/fastfuse/registration/AffineMatrix.java:42-49 | multiply of one matrix is that matrix |
| AffineMatrix.MultiplyAppend | src/fastfuse/registration/AffineMatrix.java:42-49 | multiply(a ++ b) = multiply(a) · multiply(b) |
| AffineMatrix.MultiplyFive | src/fastfuse/registration/AffineMatrix.java:42-49 | multiply of five matrices is their left-nested product |
| AffineMatrix.MulIdentityLeft | src/fastfuse/registration/AffineMatrix.java:43-46 | I · a = a |
| AffineMatrix.MulIdentityRight | src/fastfuse/registration/AffineMatrix.java:43-46 | a · I = a |
| AffineMatrix.MulAssoc | src/fastfuse/registration/AffineMatrix.java:45-47 | the product that `mul` accumulates is associative |
| AffineMatrix.RotationOrder | src/fastfuse/registration/AffineMatrix.java:32-40 | rotation is Rz · Ry · Rx of the three angles |
| AffineMatrix.TranslationZero | src/fastfuse/registration/AffineMatrix.java:14-20 | translation(0, 0, 0) is the identity |
| AffineMatrix.ScalingOne | src/fastfuse/registration/AffineMatrix.java:22-30 | scaling(1, 1, 1) is the identity |
| AffineMatrix.TranslationCompose | src/fastfuse/registration/AffineMatrix.java:14-20 | translations compose by adding their vectors |
| AffineMatrix.ScalingCompose | src/fastfuse/registration/AffineMatrix.java:22-30 | scalings compose by multiplying their factors |
| TaskHelper.AllowedDataTypes | src/fastfuse/tasks/TaskHelper.java:11-25 | true iff the array is null or every type in it is Float or UnsignedInt16 |
| TaskHelper.AllowedDataType | src/fastfuse/tasks/TaskHelper.java:11-15 | a channel type is allowed iff it is Float or UnsignedInt16: each of the other six types is refused |
| TaskHelper.AllowedImages | src/fastfuse/tasks/TaskHelper.java:27-36 | true iff the array is null or every image's channel type is allowed |
| TaskHelper.GetOpenCLDefines | src/fastfuse/tasks/TaskHelper.java:38-54 | exactly the keys DTYPE_IN, DTYPE_OUT, READ_IMAGE and WRITE_IMAGE, for two allowed types |
| TaskHelper.GetOpenCLDefinesForImages | src/fastfuse/tasks/TaskHelper.java:56-61 | the type table applied to the two images' channel types |
| TaskHelper.DefinesSeparate | src/fastfuse/tasks/TaskHelper.java:43-52 | the input defines depend only on the input type and the output defines only on the output type |
| TaskHelper.DefinesDistinguishTypes | src/fastfuse/tasks/TaskHelper.java:43-52 | the four values: ushort and read_imageui/write_imageui for 16-bit images, float and read_imagef/write_imagef for float ones |
| Downsample.KernelName | src/fastfuse/tasks/DownsampleXYbyHalfTask.java:20-38 | each variant's kernel name begins with `downsample_xy_by_half_` followed by a non-empty variant name |
| Downsample.KernelNamesDistinct | src/fastfuse/tasks/DownsampleXYbyHalfTask.java:20-38 | two variants have the same kernel name iff they are the same variant |
| Downsample.NewTask2 | src/fastfuse/tasks/DownsampleXYbyHalfTask.java:40-44 | the two-argument constructor: the median variant with no destination type |
| Downsample.NewTask3 | src/fastfuse/tasks/DownsampleXYbyHalfTask.java:46-51 | the three-argument constructor: the given variant with no destination type |
| Downsample.NewTask4 | src/fastfuse/tasks/DownsampleXYbyHalfTask.java:53-65 | the task keeps its arguments and requires only its source slot |
| Downsample.DstDims | src/fastfuse/tasks/DownsampleXYbyHalfTask.java:74-78 | three extents with 2·dst[0] = x, 2·dst[1] = y and dst[2] = z |
| Downsample.DstType | src/fastfuse/tasks/DownsampleXYbyHalfTask.java:80-82 | the configured type, or the source type when none is configured |
| Downsample.Enqueue | src/fastfuse/tasks/DownsampleXYbyHalfTask.java:67-112 | the halved destination extents as global size, the destination type, the variant's kernel and the defines of source and destination type |
| Downsample.QuarterVolume | src/fastfuse/tasks/DownsampleXYbyHalfTask.java:77-78 | the destination holds exactly a quarter of the source's voxels |
| FusionTaskBase.FusionTask.constructor | src/fastfuse/tasks/FusionTaskBase.java:36-41 | the required set is the set of slot keys, repeats collapsed, and the kernel cache starts empty |
| FusionTaskBase.FusionTask.SetupProgram | src/fastfuse/tasks/FusionTaskBase.java:43-48 | records the source file and changes nothing else |
| FusionTaskBase.FusionTask.CheckIfRequiredImagesAvailable | src/fastfuse/tasks/FusionTaskBase.java:63-70 | true iff every required slot key is among the available keys (containsAll) |
| FusionTaskBase.FusionTask.GetKernel | src/fastfuse/tasks/FusionTaskBase.java:50-61 | a cached name returns its kernel without a rebuild; a miss builds once, caches the new kernel under that name only and returns it |
| FusionTaskBase.CheckMonotone | src/fastfuse/tasks/FusionTaskBase.java:63-70 | making more slots available never makes the check fail |
| FusionTaskBase.CheckMeansAllSlotKeys | src/fastfuse/tasks/FusionTaskBase.java:63-70 | the check holds iff every constructor slot key is available |
| TenengradFusion.TenengradAdvancedFusionTask.constructor | src/fastfuse/tasks/TenengradAdvancedFusionTask.java:21-40 | even-length keys; the first half are the image keys and the second half the weight keys, in order; all keys are required |
| TenengradFusion.SplitRecovers | src/fastfuse/tasks/TenengradAdvancedFusionTask.java:28-35 | the image keys followed by the weight keys give back the constructor's array |
| TenengradFusion.TenengradAdvancedFusionTask.DstType | src/fastfuse/tasks/TenengradAdvancedFusionTask.java:57-59 | the configured type, or the first source image's type when none is configured |
| TenengradFusion.KernelNameInjective | src/fastfuse/tasks/TenengradAdvancedFusionTask.java:76-78 | different image counts get different kernel names |
| TenengradFusion.KernelName | src/fastfuse/tasks/TenengradAdvancedFusionTask.java:76-78 | the kernel name starts with `tenengrad_fusion_with_provided_weights_`, ends with `_images`, and has at least one character between |
| TenengradFusion.Fetch | src/fastfuse/tasks/TenengradAdvancedFusionTask.java:50-55 | the image of every key, in key order |
| TenengradFusion.SetArguments | src/fastfuse/tasks/TenengradAdvancedFusionTask.java:85-90 | argument 0 is the destination, 1..n the images in order and n+1..2n the weights in order, and no other index |
| TenengradFusion.TenengradAdvancedFusionTask.Enqueue | src/fastfuse/tasks/TenengradAdvancedFusionTask.java:42-103 | the destination's type and extents, the kernel for the image count, the defines, the global size and the argument layout |
| CompositeTasks.WeightKeys | src/fastfuse/tasks/CompositeTasks.java:39-46 | one temporary weight key per source, in source order |
| CompositeTasks.CombinedFilled | src/fastfuse/tasks/CompositeTasks.java:27-46 | the filled combined array is the sources followed by their weight keys |
| CompositeTasks.RecordKeys | src/fastfuse/tasks/CompositeTasks.java:44-46 | one iteration writes the source at [i] and its weight key at [n+i], and nothing else |
| CompositeTasks.AddDownsampledBlock | src/fastfuse/tasks/CompositeTasks.java:48-65 | appends the five-task block of one source |
| CompositeTasks.AddSmoothBlock | src/fastfuse/tasks/CompositeTasks.java:110-120 | appends the three-task block of one source |
| CompositeTasks.AddFusionTail | src/fastfuse/tasks/CompositeTasks.java:68-80 | appends the fusion task, the weight release and the optional source release |
| CompositeTasks.FuseWithSmoothDownsampledWeights | src/fastfuse/tasks/CompositeTasks.java:18-83 | the plan with downsampling, and the combined array of the sources and their "-wbd-" keys |
| CompositeTasks.FuseWithSmoothWeights | src/fastfuse/tasks/CompositeTasks.java:85-138 | the plan without downsampling, and the combined array of the sources and their "-wb-" keys |
| CompositeTasks.BlocksLength | src/fastfuse/tasks/CompositeTasks.java:30-66 | the blocks hold block size times the source count tasks |
| CompositeTasks.BlocksAt | src/fastfuse/tasks/CompositeTasks.java:30-66 | source i's block sits at positions w·i up to w·(i+1) |
| CompositeTasks.PlanShape | src/fastfuse/tasks/CompositeTasks.java:25-82 | length w·n + 2, plus 1 iff sources are released; the blocks, then fusion over the combined keys, the weight release and the optional source release |
| CompositeTasks.Plan | src/fastfuse/tasks/CompositeTasks.java:25-82 | the task list of either fuse builder has w·n tasks for n sources (w = 5 downsampled, 3 not) plus 2, plus 1 when the sources are released |
| CompositeTasks.PlanFusionKeys | src/fastfuse/tasks/CompositeTasks.java:44-71 | the fusion task reads 2n keys: the sources in the first half, each one's weight key at n+i |
| CompositeTasks.BlockReleaseSafe | src/fastfuse/tasks/CompositeTasks.java:48-65 | within a block every release waits for the slot derived from what it frees |
| CompositeTasks.BlocksReleaseSafe | src/fastfuse/tasks/CompositeTasks.java:30-66 | every block of every source is release-safe |
| CompositeTasks.PlanReleaseSafe | src/fastfuse/tasks/CompositeTasks.java:48-80 | each temporary key is released only after a task that reads it has produced the slot the release waits for |
| CompositeTasks.BlocksReleaseTemporaries | src/fastfuse/tasks/CompositeTasks.java:56-65 | the blocks free each source's raw weight, and its smooth weight too when downsampling |
| CompositeTasks.PlanReleasesTemporaries | src/fastfuse/tasks/CompositeTasks.java:56-76 | every temporary weight slot a fusion plan creates is freed by it |
| CompositeTasks.RegisterWithBlurPreprocessing | src/fastfuse/tasks/CompositeTasks.java:140-181 | exactly four tasks |
| CompositeTasks.RegisterPlanProperties | src/fastfuse/tasks/CompositeTasks.java:150-180 | the reference and the moving image are blurred with the given sigmas and sizes into their blurred keys, then the registration, then the release; both blurred copies are released after the registration; the moving image is released iff the flag is set |
| CompositeTasks.SubtractBlurredCopy | src/fastfuse/tasks/CompositeTasks.java:195-221 | exactly three tasks |
| CompositeTasks.SubtractBlurredCopyDefault | src/fastfuse/tasks/CompositeTasks.java:183-193 | the four-argument overload is the five-argument one with no destination type |
| CompositeTasks.SubtractPlanProperties | src/fastfuse/tasks/CompositeTasks.java:203-220 | blur the source, subtract the blurred copy, then release it; the source is released iff the flag is set |
| PoolSpec.Remove | src/fastfuse/FastFusionMemoryPool.java:289 | removing a key from the access order keeps every other key and no duplicates |
| PoolSpec.RecordAccess | src/fastfuse/FastFusionMemoryPool.java:287-291 | the key moves to the most-recent end; the other keys stay and no key is duplicated |
| PoolSpec.Push | src/fastfuse/FastFusionMemoryPool.java:205-216 | after a release every key in the access order still has a stack |
| PoolSpec.EvictStack | src/fastfuse/FastFusionMemoryPool.java:151-154 | pops images off the top of one stack, leaving a prefix of it; the size drops by exactly the popped bytes; popping stops once within the limit or at the empty stack, and nothing is popped when already within it |
| PoolSpec.EvictStackFreed | src/fastfuse/FastFusionMemoryPool.java:151-154 | only images of that stack are freed |
| PoolSpec.EvictKeysShape | src/fastfuse/FastFusionMemoryPool.java:146-155 | the same keys afterwards, every stack a prefix of its old self, keys not visited untouched |
| PoolSpec.EvictKeysFreed | src/fastfuse/FastFusionMemoryPool.java:146-155 | only available images are freed |
| PoolSpec.EvictKeysAccounting | src/fastfuse/FastFusionMemoryPool.java:146-155 | the byte counter drops by exactly the bytes removed from the stacks |
| PoolSpec.EvictKeysBound | src/fastfuse/FastFusionMemoryPool.java:146-155 | nothing happens within the limit; afterwards the counter is within the limit or every visited stack is empty; the counter never grows |
| PoolSpec.EvictKeysOrder | src/fastfuse/FastFusionMemoryPool.java:146-155 | a key loses images only when every key released before it has been emptied |
| PoolSpec.Evict | src/fastfuse/FastFusionMemoryPool.java:141-157 | the state freeMemIfNecessaryAndPossible leaves: in-use images, access order, limit and id counter untouched (its other laws are EvictKeepsInv, EvictBound, EvictOrder) |
| PoolSpec.InitialInv | src/fastfuse/FastFusionMemoryPool.java:31-37 | the empty pool satisfies the invariant and holds no available image |
| PoolSpec.EvictKeepsInv | src/fastfuse/FastFusionMemoryPool.java:141-157 | eviction keeps the invariant, the in-use set and the access order, and frees only available images, none in use |
| PoolSpec.EvictBound | src/fastfuse/FastFusionMemoryPool.java:131-157 | eviction acts only above the limit, and ends within it or with no available image |
| PoolSpec.EvictOrder | src/fastfuse/FastFusionMemoryPool.java:146-155 | least recently released keys are emptied first |
| PoolSpec.RequestProperties | src/fastfuse/FastFusionMemoryPool.java:165-196 | the invariant holds; the image has the key and was not in use and now is; it is new iff the key's stack is absent or empty; a reuse pops the top and leaves the counter; a new image counts its bytes and eviction follows |
| PoolSpec.RequestAllocates | src/fastfuse/FastFusionMemoryPool.java:175-194 | with no image of the key, a fresh image is allocated and put in use, and eviction frees none in use |
| PoolSpec.AllocateKeepsInv | src/fastfuse/FastFusionMemoryPool.java:87-120 | allocation adds the image's bytes, so the invariant holds with the image in use |
| PoolSpec.RequestReuses | src/fastfuse/FastFusionMemoryPool.java:181-187 | with an image of the key, the top of its stack is popped and put in use, and nothing else changes |
| PoolSpec.Request | src/fastfuse/FastFusionMemoryPool.java:165-196 | the image handed out is in use afterwards, with access order and limit untouched (see RequestProperties) |
| PoolSpec.PopKeepsInv | src/fastfuse/FastFusionMemoryPool.java:184-187 | the popped image was not in use, and the invariant holds once it is |
| PoolSpec.ReleaseProperties | src/fastfuse/FastFusionMemoryPool.java:203-222 | the invariant holds; the image leaves the in-use set, its key moves to the most-recent end and has a stack, and eviction frees nothing in use |
| PoolSpec.PushKeepsInv | src/fastfuse/FastFusionMemoryPool.java:205-216 | pushing a released image, creating the stack if absent, keeps the invariant |
| PoolSpec.Release | src/fastfuse/FastFusionMemoryPool.java:203-222 | the image leaves the in-use set and its key becomes the most recently released (see ReleaseProperties) |
| PoolSpec.FreeProperties | src/fastfuse/FastFusionMemoryPool.java:235-255 | no stacks and no access order are left; without the flag the in-use set stays and the counter is its bytes; with it nothing is in use and the counter is 0 |
| PoolSpec.Free | src/fastfuse/FastFusionMemoryPool.java:235-255 | no stacks and no access order remain, limit and id counter are kept, and the in-use set is emptied iff the flag is set |
| MemoryPool.Pool.constructor | src/fastfuse/FastFusionMemoryPool.java:76-85 | an empty pool with the given limit, satisfying the invariant |
| MemoryPool.Pool.AllocateImage | src/fastfuse/FastFusionMemoryPool.java:87-120 | a new image of the key; the counter grows by its bytes |
| MemoryPool.Pool.FreeImage | src/fastfuse/FastFusionMemoryPool.java:122-129 | the counter drops by the image's bytes and the image is closed |
| MemoryPool.Pool.GetAvailableImagesCount | src/fastfuse/FastFusionMemoryPool.java:315-321 | the number of images over all stacks |
| MemoryPool.Pool.FreeMemIsPossible | src/fastfuse/FastFusionMemoryPool.java:136-139 | true iff some image is available |
| MemoryPool.Pool.FreeMemIsNecessary | src/fastfuse/FastFusionMemoryPool.java:131-134 | true iff the current size exceeds the preferred limit; when false, eviction leaves a valid pool unchanged |
| MemoryPool.Pool.FreeMemIfNecessaryAndPossible | src/fastfuse/FastFusionMemoryPool.java:141-157 | the new state is the eviction of the old one |
| MemoryPool.Pool.FreeInAccessOrder | src/fastfuse/FastFusionMemoryPool.java:146-155 | the stacks, counter and closed images after visiting the keys in access order |
| MemoryPool.Pool.FreeFromStack | src/fastfuse/FastFusionMemoryPool.java:151-154 | the stack, counter and closed images after popping one stack while over the limit |
| MemoryPool.Pool.RequestImage | src/fastfuse/FastFusionMemoryPool.java:165-196 | the state and image of the request specification; the invariant holds, and the image is in use and was not before |
| MemoryPool.Pool.ReleaseImage | src/fastfuse/FastFusionMemoryPool.java:203-222 | the state of the release specification; the invariant holds and the image is not in use |
| MemoryPool.Pool.PushBack | src/fastfuse/FastFusionMemoryPool.java:205-216 | the state after the release's bookkeeping, before eviction |
| MemoryPool.Pool.RecordAccess | src/fastfuse/FastFusionMemoryPool.java:287-291 | the access order with the key moved to the most-recent end |
| MemoryPool.Pool.Free | src/fastfuse/FastFusionMemoryPool.java:235-255 | the state of the free specification for the flag, and the pool invariant is kept |
| MemoryPool.Pool.FreeAvailable | src/fastfuse/FastFusionMemoryPool.java:238-240 | the counter drops by the bytes of all stacks, and all their images are closed |
| MemoryPool.Pool.PopAll | src/fastfuse/FastFusionMemoryPool.java:239-240 | the counter drops by the stack's bytes, and all its images are closed |
| MemoryPool.Pool.FreeInUse | src/fastfuse/FastFusionMemoryPool.java:243-254 | nothing is left in use, the counter drops by the bytes of those images, and they are closed |
| MemoryPool.Pool.Close | src/fastfuse/FastFusionMemoryPool.java:224-228 | free with in-use images: nothing available, nothing in use, counter 0 |
| MemoryPool.Pool.SetPreferredSizeLimit | src/fastfuse/FastFusionMemoryPool.java:262-265 | only the limit changes, and the invariant still holds |
| MemoryPool.Pool.IsInUse | src/fastfuse/FastFusionMemoryPool.java:272-275 | a missing image is never in use; an image in use in a valid pool carries an id the pool has handed out |
| MemoryPool.PrettyName | src/fastfuse/FastFusionMemoryPool.java:306-313 | "<unnamed>" for null; a name that fits is returned unchanged; a longer one becomes its first length-3 characters followed by "...", of exactly that length |

## Left out

- The OpenCL kernels, buffer transfers and the ClearCL context are
  modelled as follows:
  - a device buffer is an identity and a length;
  - the context hands out buffers;
  - the device contents are a function parameter;
  - a kernel launch is a `Pass` or `Dispatch` record of what it is given.

  `getKernels`, `reduceImageMeans`, `reduceImageVar`, `reduceNCCAffine`
  and `floatArray` are not modelled: they are kernel dispatch and
  floating-point statistics.
- Floating point:
  - means, matrices and costs are `real`;
  - float narrowing, rounding and double accumulation are not modelled;
  - the mean of an empty buffer is the separate value `NaN`.
- The transform's rotation matrices are a parameter from axis and angle to
  a 4x4 matrix, so the trigonometry of `rotX`/`rotY`/`rotZ` and the
  degree conversion are not modelled. Only the composition order is.
- Optimizer and search:
  - BOBYQA, the reflective read of `currentBest` and the random
    perturbation are function parameters;
  - the swallowed `TooManyEvaluationsException` is not modelled;
  - the null result after an `IllegalAccessException` is not modelled.
- `register` and `transform` as device calls: only their parameter
  bookkeeping and the matrix are modelled, because the cost is the NCC
  computed on the device.
- Integers are unbounded. Java `long`/`int` overflow of voxel counts, byte
  sizes and the `(int)` cast of buffer lengths is not modelled.
- WorkGroup.ComputeLocalSize: the group size exponent is the integer
  log2. The rounding of `Math.log(g) / Math.log(2)` is not modelled.
- Registration.CenterScaleInverse: requires `scaleZ != 0.0`. For a zero
  z-scale the centring matrix is singular and `Matrix4f.invert` throws
  `SingularMatrixException` (`Registration.java:146`). That error path
  is not modelled.
- Registration.Registration.constructor: requires `scaleZ != 0.0`; with a zero
  z-scale the source throws `SingularMatrixException` while inverting the
  centring matrix (`Registration.java:146`), a case the model does not cover.
- Registration.Registration.SetSizeAndPrepare: requires `scaleZ != 0.0`; with a zero
  z-scale the source throws `SingularMatrixException` while inverting the
  centring matrix (`Registration.java:146`), a case the model does not cover.
- Registration.Registration.SetMatrices: requires `scaleZ != 0.0`; with a zero
  z-scale the source throws `SingularMatrixException` while inverting the
  centring matrix (`Registration.java:146`), a case the model does not cover.
- TenengradFusion.TenengradAdvancedFusionTask.Enqueue: requires at least one
  image. With none the source throws ArrayIndexOutOfBoundsException at
  `TenengradAdvancedFusionTask.java:71` (and at `:59` when no destination
  type is set); the constructor and both fuse builders with no sources
  reach that case, which the model does not cover.
- ReductionLadder.BuildLadder: requires `threshold >= 0 || total >= g`.
  Otherwise the top of the stack reaches 0, which passes the loop test
  for ever.
- The pool's allocation retry is not modelled: on a failed allocation
  `allocateImage` calls `free()` and tries once more. Device allocation
  never fails in the model.
- Pool operations with no state logic are not modelled:
  - the static singleton (`getInstance`, `get`), `debug`, `toString`;
  - the accessors `getPreferredSizeLimit` and `getCurrentSize`, whose
    fields are read directly;
  - the one-argument `requestImage` and `releaseImage` overloads, which
    pass a null name.

  `free()` is `Free(false)`. `isInUse` is the function `IsInUse`,
  and `freeMemIsNecessary` the function `FreeMemIsNecessary`. `getKey` is
  `Images.KeyOf`.
- The pool's `HashMap` and `HashSet` iteration order is unspecified.
  `Free`, `FreeInUse` and `GetAvailableImagesCount` take keys and images
  in any order, and their results do not depend on it.
- The names passed to `requestImage` and `releaseImage` only feed debug
  output. The model takes them and ignores them.
- MemoryPool.PrettyName: requires the length to be at least 3 when the
  name is longer. Otherwise `substring` throws. The pool only calls it
  with length 10.
- Image byte sizes are bytes per voxel times the voxel count, standing in
  for `getSizeInBytes`.
- The thin GPU task wrappers are not modelled: AverageTask,
  TenengradFusionTask, FlipTask, GaussianBlurTask, StackSplitTask,
  MemoryReleaseTask, IdentityTask, RegistrationTask and
  RegisteredFusionTask. In the plans they are datatype constructors that
  carry the arguments CompositeTasks passes. The `GaussianBlurTask`
  constructors in the repository do not take the `(src, dst, sigmas,
  null, true)` arguments CompositeTasks uses, so the model keeps the
  call's arguments as given.
- The tasks' `enqueue` would dispatch through `ensureImageAllocated`, the
  kernel run and the `IOException` path. They are left out: the model
  returns the dispatch description and the destination image.
- `FusionTaskBase.toString` and the program build options are not
  modelled. A build is a counted `Program` value.
