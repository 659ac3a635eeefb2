/** storage.go: the slice iterator and the two VRAM totals. */
module Storage {
  import opened Words
  import opened GpuSpec
  import opened MemdbSpec

  class DefaultIterator<T> {
    var index: int
    const objects: seq<T>

    ghost predicate Valid()
      reads this
    {
      -1 <= index < |objects|
    }

    /** The objects Next has not reached yet. */
    ghost function Rest(): seq<T>
      requires Valid()
      reads this
    {
      objects[index + 1..]
    }

    function Value(): T
      requires 0 <= index < |objects|
      reads this
    {
      objects[index]
    }

    constructor (objects: seq<T>)
      ensures Valid() && this.objects == objects && Rest() == objects
    {
      this.objects, index := objects, -1;
    }

    method Next() returns (more: bool)
      requires Valid()
      modifies this
      ensures Valid()
      ensures more <==> old(Rest()) != []
      ensures more ==> 0 <= index && Value() == old(Rest())[0] && Rest() == old(Rest())[1..]
      ensures !more ==> index == old(index)
    {
      var next := index + 1;
      if next >= |objects| {
        return false;
      }
      index := next;
      more := true;
    }
  }

  method SumVram(gpus: seq<GpuInfo>) returns (vram: Word64)
    ensures vram == TotalVram(gpus)
  {
    vram := 0;
    for n := 0 to |gpus|
      invariant vram == TotalVram(gpus[..n])
    {
      assert gpus[..n + 1][..n] == gpus[..n];
      WrapTwice(VramSum(gpus[..n]), gpus[n].vram);
      vram := Wrap64(vram + gpus[n].vram);
    }
    assert gpus[..|gpus|] == gpus;
  }

  method SumVramRequired(gpus: seq<GpuRequirement>) returns (vram: Word64)
    ensures vram == TotalVramRequired(gpus)
  {
    vram := 0;
    for n := 0 to |gpus|
      invariant vram == TotalVramRequired(gpus[..n])
    {
      assert gpus[..n + 1][..n] == gpus[..n];
      WrapTwice(RequiredSum(gpus[..n]), gpus[n].vramRequired);
      vram := Wrap64(vram + gpus[n].vramRequired);
    }
    assert gpus[..|gpus|] == gpus;
  }
}
