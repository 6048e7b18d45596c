/**
 * An element's `classList`, as the set of class names it holds, and the three
 * `DOMTokenList` operations the site's script uses on it.
 */
module ClassLists {
  type ClassList = set<string>

  /** `classList.add(name)` */
  function Add(c: ClassList, name: string): ClassList
  {
    c + {name}
  }

  /** `classList.remove(name)` */
  function Remove(c: ClassList, name: string): ClassList
  {
    c - {name}
  }

  /** `classList.toggle(name)` */
  function Toggle(c: ClassList, name: string): ClassList
  {
    if name in c then c - {name} else c + {name}
  }
}
