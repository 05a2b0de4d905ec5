/** The common state of a fusion task (FusionTaskBase): the set of slot keys
    the task waits for and a per-task cache of compiled kernels. Program
    compilation is a device operation; here a build is a counted event that
    yields a program, and a kernel is named by its program build and name. */
module FusionTaskBase {
  import opened Wrappers

  /** A compiled program: the kernel source it came from and which build of
      this task produced it. */
  datatype Program = Program(sourceFile: string, build: nat)

  /** A kernel created from a program. */
  datatype Kernel = Kernel(program: Program, name: string)

  class FusionTask {
    var requiredKeys: set<string>
    var sourceFile: Option<string>
    var program: Option<Program>
    var builds: nat
    var kernels: map<string, Kernel>

    /** Kernels in the cache are named after their key and come from an earlier build. */
    ghost predicate Valid()
      reads this
    {
      && (forall n :: n in kernels ==> kernels[n].name == n && kernels[n].program.build < builds)
      && (program.Some? ==> program.value.build < builds)
    }

    /** The constructor adds every given slot key to the required set; repeated keys collapse. */
    constructor (slotKeys: seq<string>)
      ensures Valid()
      ensures requiredKeys == set k | k in slotKeys
      ensures sourceFile == None && program == None && kernels == map[] && builds == 0
    {
      requiredKeys := {};
      sourceFile := None;
      program := None;
      builds := 0;
      kernels := map[];
      new;
      var i := 0;
      while i < |slotKeys|
        invariant 0 <= i <= |slotKeys|
        invariant requiredKeys == set k | k in slotKeys[..i]
        invariant sourceFile == None && program == None && kernels == map[] && builds == 0
      {
        assert slotKeys[..i + 1] == slotKeys[..i] + [slotKeys[i]];
        requiredKeys := requiredKeys + {slotKeys[i]};
        i := i + 1;
      }
      assert slotKeys[..i] == slotKeys;
    }

    /** setupProgram: the source file later builds compile. */
    method SetupProgram(file: string)
      requires Valid()
      modifies this
      ensures Valid()
      ensures sourceFile == Some(file)
      ensures requiredKeys == old(requiredKeys) && program == old(program) && builds == old(builds)
      ensures kernels == old(kernels)
    {
      sourceFile := Some(file);
    }

    /** checkIfRequiredImagesAvailable: every required key is among the available ones. */
    predicate CheckIfRequiredImagesAvailable(available: set<string>): (r: bool)
      reads this
      ensures r <==> forall k :: k in requiredKeys ==> k in available
    {
      requiredKeys <= available
    }

    /** getKernel: a cached kernel is returned as is, and nothing is rebuilt;
        otherwise the program is built anew, the kernel is created from it and
        stored under its name only. Either way the kernel is cached afterwards,
        so a later call with the same name returns the same kernel. */
    method GetKernel(name: string) returns (k: Kernel)
      requires Valid() && sourceFile.Some?
      modifies this
      ensures Valid()
      ensures k.name == name && name in kernels && kernels[name] == k
      ensures requiredKeys == old(requiredKeys) && sourceFile == old(sourceFile)
      ensures name in old(kernels) ==>
                k == old(kernels[name]) && kernels == old(kernels) && builds == old(builds) && program == old(program)
      ensures name !in old(kernels) ==>
                && builds == old(builds) + 1
                && program == Some(Program(sourceFile.value, old(builds)))
                && k == Kernel(program.value, name)
                && kernels == old(kernels)[name := k]
    {
      if name in kernels {
        return kernels[name];
      }
      var p := Program(sourceFile.value, builds);
      program := Some(p);
      builds := builds + 1;
      k := Kernel(p, name);
      kernels := kernels[name := k];
    }
  }

  /** Making more keys available never makes a task's check fail. */
  lemma CheckMonotone(t: FusionTask, a: set<string>, b: set<string>)
    requires a <= b
    ensures t.CheckIfRequiredImagesAvailable(a) ==> t.CheckIfRequiredImagesAvailable(b)
  {
  }

  /** The check holds exactly when every constructor slot key is available. */
  lemma CheckMeansAllSlotKeys(t: FusionTask, slotKeys: seq<string>, available: set<string>)
    requires t.requiredKeys == set k | k in slotKeys
    ensures t.CheckIfRequiredImagesAvailable(available) <==> forall i :: 0 <= i < |slotKeys| ==> slotKeys[i] in available
  {
    if t.CheckIfRequiredImagesAvailable(available) {
      forall i | 0 <= i < |slotKeys| ensures slotKeys[i] in available {
        assert slotKeys[i] in t.requiredKeys;
      }
    }
  }
}
