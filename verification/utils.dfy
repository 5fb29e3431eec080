/** utils.c */
module Utils {

  /** startswith(prefix, str): `memcmp(prefix, str, strlen(prefix)) == 0`, compared character
      by character. When `str` is shorter than `prefix` the comparison reaches the terminating
      NUL of `str`, which differs from every character of `prefix`, so the answer is false.
      Both arguments are values: nothing is modified. */
  function StartsWith(prefix: string, str: string): (b: bool)
    ensures b <==> |prefix| <= |str| && str[..|prefix|] == prefix
  {
    if prefix == [] then true
    else if str == [] then false
    else prefix[0] == str[0] && StartsWith(prefix[1..], str[1..])
  }
}
