/** What several parts of the kernel share. */
module Common {

  const U32 := 0x1_0000_0000

  /** Where the kernel is loaded. */
  const KERNEL_BOOT_VMA := 0x10_0000

  datatype Option<T> = None | Some(value: T)

  predicate NoDup<T(==)>(q: seq<T>) {
    forall i, j :: 0 <= i < j < |q| ==> q[i] != q[j]
  }
}
