/** The public blog list, client/src/pages/otherPages/ReadBlogs.jsx: five posts
    per page, one button per page, and a teaser that cuts long posts. */
module ReadBlogs {

  const BlogsPerPage := 5
  const InitialPage := 1

  function Min(a: int, b: int): int
  {
    if a <= b then a else b
  }

  /** A position argument of `Array.prototype.slice`: a negative one counts
      from the end, and both are clamped to the array. */
  function SliceIndex(k: int, n: nat): (j: nat)
    ensures j <= n
  {
    if k < 0 then (if n + k < 0 then 0 else n + k) else Min(k, n)
  }

  /** `s.slice(start, end)`. */
  function Slice<T>(s: seq<T>, start: int, end: int): seq<T>
  {
    var a := SliceIndex(start, |s|);
    var b := SliceIndex(end, |s|);
    if a < b then s[a..b] else []
  }

  /** The posts the page shows: from `page * 5 - 5` to `page * 5`. */
  function CurrentBlogs<T>(blogs: seq<T>, page: int): seq<T>
  {
    Slice(blogs, page * BlogsPerPage - BlogsPerPage, page * BlogsPerPage)
  }

  /** For a page number from 1 on, the window is the posts from 5(page-1) up to
      5 page, cut at the end of the list: at most five, in list order. */
  lemma WindowOfPage<T>(blogs: seq<T>, page: int)
    requires page >= 1
    ensures var lo := Min(5 * (page - 1), |blogs|);
            CurrentBlogs(blogs, page) == blogs[lo..Min(5 * page, |blogs|)]
    ensures |CurrentBlogs(blogs, page)| <= 5
  {
  }

  /** `Math.ceil(blogs.length / 5)`, the number of page buttons. */
  function PageCount(n: nat): (count: nat)
    ensures count * 5 >= n && (count == 0 || (count - 1) * 5 < n)
  {
    (n + 4) / 5
  }

  /** The button labels, 1 to the page count. */
  function PageLabels(n: nat): (labels: seq<int>)
    ensures |labels| == PageCount(n)
    ensures forall i :: 0 <= i < |labels| ==> labels[i] == i + 1
  {
    seq(PageCount(n), i => i + 1)
  }

  /** The list on the page and the page shown. */
  datatype Listing<T> = Listing(blogs: seq<T>, currentPage: int)

  function InitialListing<T>(): Listing<T>
  {
    Listing([], InitialPage)
  }

  /** paginate(k): the page becomes exactly `k`. */
  function Paginate<T>(l: Listing<T>, k: int): (l': Listing<T>)
    ensures l'.currentPage == k && l'.blogs == l.blogs
  {
    l.(currentPage := k)
  }

  /** The windows of pages 1 to `pages`, one after another. */
  function Windows<T>(blogs: seq<T>, pages: nat): seq<T>
  {
    if pages == 0 then [] else Windows(blogs, pages - 1) + CurrentBlogs(blogs, pages)
  }

  lemma {:induction false} WindowsPrefix<T>(blogs: seq<T>, pages: nat)
    ensures Windows(blogs, pages) == blogs[..Min(5 * pages, |blogs|)]
  {
    if pages > 0 {
      WindowsPrefix(blogs, pages - 1);
      WindowOfPage(blogs, pages);
      var a := Min(5 * (pages - 1), |blogs|);
      var b := Min(5 * pages, |blogs|);
      assert blogs[..a] + blogs[a..b] == blogs[..b];
    }
  }

  /** Paging through every button shows each post exactly once, in order. */
  lemma AllPagesCoverBlogs<T>(blogs: seq<T>)
    ensures Windows(blogs, PageCount(|blogs|)) == blogs
  {
    WindowsPrefix(blogs, PageCount(|blogs|));
  }

  /** truncateContent(content, maxLength), `text` standing for the text of the
      parsed HTML: short posts keep their markup; longer ones become the first
      `maxLength` characters of text and an ellipsis. */
  function Truncate(content: string, text: string, maxLength: nat): (r: string)
    ensures |text| <= maxLength ==> r == content
    ensures |text| > maxLength ==>
              |r| == maxLength + 3 && r[..maxLength] == text[..maxLength] && r[maxLength..] == "..."
  {
    if |text| <= maxLength then content else text[..maxLength] + "..."
  }

  /** The length the list shows teasers at. */
  const TeaserLength: nat := 20
}
